/** What every module of the model shares: results, time, phases and TTLs. */
module Common {
  datatype Option<+T> = None | Some(value: T)

  datatype Result<+T, +E> = Ok(value: T) | Err(error: E) {
    predicate IsFailure() { Err? }

    function PropagateFailure<U>(): Result<U, E>
      requires Err?
    {
      Err(error)
    }

    function Extract(): T
      requires Ok?
    {
      value
    }
  }

  /** The path `child` lies below the path `parent`. */
  predicate Below(child: string, parent: string) { parent + "/" <= child }

  datatype CacheKey = CacheKey(namespace: string, name: string)

  type Time = nat
  const SECOND: nat := 1_000_000_000

  /** metav1.Time is stored as RFC 3339 text, which keeps whole seconds. */
  function Stored(t: Time): Time { t - t % SECOND }

  /** Storing keeps the order of times and loses less than a second. */
  lemma StoredMonotone(a: Time, b: Time)
    requires a <= b
    ensures Stored(a) <= Stored(b)
    ensures a < Stored(a) + SECOND && Stored(a) <= a
  {
  }

  datatype Phase = NoPhase | Pending | Downloading | Ready | Failed | Evicted

  /** The eviction TTL of a cache: absent, unparsable or not positive, or a duration. */
  datatype Ttl = NoTtl | BadTtl | Ttl(duration: nat)

  /** Some call from `from` to `to` is among those that fail. */
  ghost predicate Faulty(faults: nat -> bool, from: nat, to: nat) { exists i :: from <= i < to && faults(i) }

  /** A run of a protocol: its states and the events between them. */
  datatype Run<S, E> = Run(states: seq<S>, events: seq<E>)

  function Extended<S, E>(r: Run<S, E>, e: E, s: S): Run<S, E> { Run(r.states + [s], r.events + [e]) }

  /** `r'` is `r` and more. */
  predicate Grew<S(==), E(==)>(r: Run<S, E>, r': Run<S, E>) { r.states <= r'.states && r.events <= r'.events }

  lemma GrowthIsLonger<S(!new), E(!new)>()
    ensures forall r: Run<S, E>, r': Run<S, E> :: Grew(r, r') ==> |r.events| <= |r'.events|
  {
  }

  lemma Growth<S(!new), E(!new)>()
    ensures forall r: Run<S, E> :: Grew(r, r)
    ensures forall r: Run<S, E>, r': Run<S, E>, r'': Run<S, E> :: Grew(r, r') && Grew(r', r'') ==> Grew(r, r'')
  {
  }
}
