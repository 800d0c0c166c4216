/**
 The slice of Redis the services use. A key whose expiry has passed is dead: reads do not
 see it and INCR starts afresh, so leaving it in the map or evicting it makes no difference.
 */
module RedisStore {
  import opened Base

  datatype Value = Number(n: int) | Text(s: string)

  datatype Entry = Entry(value: Value, expiry: Option<Time>)

  type Store<K> = map<K, Entry>

  predicate Live<K>(store: Store<K>, k: K, now: Time)
  {
    k in store && (store[k].expiry.None? || now < store[k].expiry.value)
  }

  function Get<K>(store: Store<K>, k: K, now: Time): Option<Value>
  {
    if Live(store, k, now) then Some(store[k].value) else None
  }

  /** SET key value EX seconds */
  function SetEx<K>(store: Store<K>, k: K, v: Value, now: Time, seconds: nat): Store<K>
  {
    store[k := Entry(v, Some(now + seconds * 1000))]
  }

  /** What INCR works on: an integer, or nothing yet. */
  predicate Countable<K>(store: Store<K>, k: K, now: Time)
  {
    Live(store, k, now) ==> store[k].value.Number?
  }

  function Count<K>(store: Store<K>, k: K, now: Time): int
    requires Countable(store, k, now)
  {
    if Live(store, k, now) then store[k].value.n else 0
  }

  /** INCR keeps the expiry of a live counter; a dead one restarts at 1 and never expires. */
  function Incr<K>(store: Store<K>, k: K, now: Time): Store<K>
    requires Countable(store, k, now)
  {
    store[k := Entry(Number(Count(store, k, now) + 1), if Live(store, k, now) then store[k].expiry else None)]
  }

  function Expire<K>(store: Store<K>, k: K, now: Time, seconds: nat): Store<K>
  {
    if Live(store, k, now) then store[k := store[k].(expiry := Some(now + seconds * 1000))] else store
  }

  /** Whole seconds left, rounded to nearest; -1 without an expiry, -2 without the key. */
  function Ttl<K>(store: Store<K>, k: K, now: Time): int
  {
    if !Live(store, k, now) then -2
    else if store[k].expiry.None? then -1
    else (store[k].expiry.value - now + 500) / 1000
  }

  class Redis<K(==)> {
    var store: Store<K>
    var now: Time

    constructor (now: Time)
      ensures store == map[] && this.now == now
    {
      store, this.now := map[], now;
    }

    method Read(k: K) returns (v: Option<Value>)
      ensures v == Get(store, k, now)
      ensures v.Some? <==> k in store && (store[k].expiry.Some? ==> now < store[k].expiry.value)
      ensures v.Some? ==> v.value == store[k].value
    {
      v := if k !in store || (store[k].expiry.Some? && store[k].expiry.value <= now) then None
        else Some(store[k].value);
    }

    method Exists(k: K) returns (b: bool)
      ensures b == Live(store, k, now)
    {
      var v := Read(k);
      b := v.Some?;
    }

    /** Reads give the value for that long and nothing afterwards; other keys read as before. */
    method Set(k: K, v: Value, seconds: nat)
      modifies this`store
      ensures store == SetEx(old(store), k, v, now, seconds)
      ensures forall t: Time :: Get(store, k, t) == if t < now + seconds * 1000 then Some(v) else None
      ensures forall x, t: Time | x != k :: Get(store, x, t) == Get(old(store), x, t)
    {
      store := store[k := Entry(v, Some(now + seconds * 1000))];
    }

    method Del(k: K)
      modifies this`store
      ensures store == old(store) - {k}
    {
      store := store - {k};
    }

    method Increment(k: K) returns (n: int)
      requires Countable(store, k, now)
      modifies this`store
      ensures store == Incr(old(store), k, now) && n == Count(old(store), k, now) + 1
      ensures var live := k in old(store) && (old(store)[k].expiry.Some? ==> now < old(store)[k].expiry.value);
              && n == (if live then old(store)[k].value.n + 1 else 1)
              && k in store && store[k] == Entry(Number(n), if live then old(store)[k].expiry else None)
      ensures store.Keys == old(store).Keys + {k}
      ensures forall x | x in old(store) && x != k :: store[x] == old(store)[x]
    {
      var v := Read(k);
      match v {
        case None =>
          n := 1;
          store := store[k := Entry(Number(1), None)];
        case Some(old_) =>
          n := old_.n + 1;
          store := store[k := store[k].(value := Number(n))];
      }
    }

    /** From now on a live value reads for that long, whatever its expiry was; a dead one stays dead. */
    method SetExpiry(k: K, seconds: nat)
      modifies this`store
      ensures store == Expire(old(store), k, now, seconds)
      ensures forall t: Time | now <= t ::
              Get(store, k, t) == if t < now + seconds * 1000 then Get(old(store), k, now) else None
      ensures forall x, t: Time | x != k :: Get(store, x, t) == Get(old(store), x, t)
    {
      var live := Exists(k);
      if live { store := store[k := store[k].(expiry := Some(now + seconds * 1000))]; }
    }
  }
}

/** The key names of the services and why they never collide. */
module Keys {

  datatype Kind =
    | OtpCode | OtpAttempts | OtpCooldown
    | ResetCode | ResetAttempts | ResetCooldown
    | Challenge | ChallengeAttempts
    | LastCounter

  /** `id` is a user's UUID, or the hex digest of a challenge token. */
  datatype Key = Key(kind: Kind, id: string)

  function Prefix(kind: Kind): string
  {
    match kind
    case OtpCode => "otp:verify:"
    case OtpAttempts => "otp:verify:attempts:"
    case OtpCooldown => "otp:verify:cooldown:"
    case ResetCode => "pwreset:"
    case ResetAttempts => "pwreset:attempts:"
    case ResetCooldown => "pwreset:cooldown:"
    case Challenge => "mfa:login:"
    case ChallengeAttempts => "mfa:login:attempts:"
    case LastCounter => "totp:last:"
  }

  function Render(k: Key): string
  {
    Prefix(k.kind) + k.id
  }

  lemma PrefixesDiffer(a: Kind, b: Kind)
    requires Prefix(a) == Prefix(b)
    ensures a == b
  {
    var p, q := Prefix(a), Prefix(b);
    assert |p| == |q| && p[0] == q[0];
    if |p| == 20 { assert p[11] == q[11]; }
    if |p| == 17 { assert p[8] == q[8]; }
  }

  lemma ColonBeforeEnds(p: string, q: string, x: string, y: string)
    requires q != [] && q[|q| - 1] == ':' && ':' !in x && p + x == q + y
    ensures |q| <= |p|
  {
    assert (p + x)[|q| - 1] == (q + y)[|q| - 1] == ':';
  }

  lemma LastColonSplits(p: string, q: string, x: string, y: string)
    requires p != [] && q != [] && p[|p| - 1] == ':' && q[|q| - 1] == ':'
    requires ':' !in x && ':' !in y && p + x == q + y
    ensures p == q && x == y
  {
    ColonBeforeEnds(p, q, x, y);
    ColonBeforeEnds(q, p, y, x);
    assert p == (p + x)[..|p|] && q == (q + y)[..|q|];
    assert x == (p + x)[|p|..] && y == (q + y)[|q|..];
  }

  /**
   The rendered names collide for no two keys: user ids and digests hold no colon. Without
   that, `pwreset:` + "attempts:x" would be the attempts counter of "x".
   */
  lemma NamesNeverCollide(a: Key, b: Key)
    requires ':' !in a.id && ':' !in b.id
    ensures Render(a) == Render(b) <==> a == b
  {
    if Render(a) == Render(b) {
      LastColonSplits(Prefix(a.kind), Prefix(b.kind), a.id, b.id);
      PrefixesDiffer(a.kind, b.kind);
    }
  }
}
