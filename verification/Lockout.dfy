/** Login failures per source: after three failures the source is locked for ten minutes. */
module Lockout {

  datatype LoginFailure = LoginFailure(count: nat, lockedUntil: int)

  type Ledger = map<string, LoginFailure>

  const LIMIT := 3
  const LOCK_SECONDS := 10 * 60

  datatype Verdict = TooMany | Unauthorized | Accepted

  /** One login: when the lock was checked, when a failure would be recorded, and whether the credentials are right. */
  datatype Attempt = Attempt(checkedAt: int, recordedAt: int, valid: bool)

  function EntryOf(l: Ledger, key: string): LoginFailure {
    if key in l then l[key] else LoginFailure(0, 0)
  }

  predicate Locked(l: Ledger, key: string, now: int) {
    key in l && l[key].lockedUntil > now
  }

  function RecordFailure(l: Ledger, key: string, now: int): Ledger {
    var entry := EntryOf(l, key);
    var count := if entry.lockedUntil <= now then entry.count + 1 else entry.count;
    l[key := if count >= LIMIT then LoginFailure(0, now + LOCK_SECONDS) else entry.(count := count)]
  }

  function Login(l: Ledger, key: string, a: Attempt): (Ledger, Verdict) {
    if Locked(l, key, a.checkedAt) then (l, TooMany)
    else if a.valid then (l - {key}, Accepted)
    else (RecordFailure(l, key, a.recordedAt), Unauthorized)
  }

  /** The verdicts of a run of attempts from one source. */
  function Verdicts(l: Ledger, key: string, run: seq<Attempt>): seq<Verdict>
    decreases |run|
  {
    if run == [] then [] else
      var (l', v) := Login(l, key, run[0]);
      [v] + Verdicts(l', key, run[1..])
  }

  function After(l: Ledger, key: string, run: seq<Attempt>): Ledger
    decreases |run|
  {
    if run == [] then l else After(Login(l, key, run[0]).0, key, run[1..])
  }

  /** How many attempts of the run set a lock. */
  function Locks(l: Ledger, key: string, run: seq<Attempt>): nat
    decreases |run|
  {
    if run == [] then 0 else
      var (l', v) := Login(l, key, run[0]);
      (if v.Unauthorized? && EntryOf(l, key).count + 1 >= LIMIT then 1 else 0) + Locks(l', key, run[1..])
  }

  function Count(vs: seq<Verdict>, v: Verdict): nat {
    if vs == [] then 0 else (if vs[0] == v then 1 else 0) + Count(vs[1..], v)
  }

  /** Attempts one after the other within [a, b], in seconds since the epoch. */
  ghost predicate Within(run: seq<Attempt>, a: int, b: int) {
    0 <= a <= b && (run == [] || (a <= run[0].checkedAt <= run[0].recordedAt && Within(run[1..], run[0].recordedAt, b)))
  }

  /** Between attempts no source has three failures counted. */
  ghost predicate Sound(l: Ledger) {
    forall k <- l :: l[k].count < LIMIT
  }

  /**
   * Three failures of an open source with nothing counted, at any three times in order, lock it: every attempt is
   * turned away for the ten minutes after the last one, right or wrong, and none is at their end. Two lock nothing.
   */
  lemma ThreeFailuresLock(l: Ledger, key: string, first: int, second: int, third: int)
    requires EntryOf(l, key).count == 0 && EntryOf(l, key).lockedUntil <= first <= second <= third
    ensures var (l1, v1) := Login(l, key, Attempt(first, first, false));
            var (l2, v2) := Login(l1, key, Attempt(second, second, false));
            var (l3, v3) := Login(l2, key, Attempt(third, third, false));
            && v1 == v2 == v3 == Unauthorized
            && (forall now: int :: now >= second ==> !Locked(l2, key, now))
            && (forall now: int :: Locked(l3, key, now) <==> now < third + 600)
            && (forall a: Attempt :: Login(l3, key, a).1 == TooMany <==> a.checkedAt < third + 600)
            && EntryOf(l3, key).count == 0
  {
  }

  /** A success forgets the failures of its source, so it takes three new ones to lock it; other sources keep theirs. */
  lemma SuccessForgets(l: Ledger, key: string, a: Attempt)
    requires !Locked(l, key, a.checkedAt) && a.valid
    ensures var (l', v) := Login(l, key, a);
            && v == Accepted && EntryOf(l', key) == LoginFailure(0, 0)
            && forall k :: k != key ==> (k in l' <==> k in l) && EntryOf(l', k) == EntryOf(l, k)
  {
  }

  /** Recording under an active lock changes nothing, so a lock is never extended. */
  lemma LockIsNotExtended(l: Ledger, key: string, now: int)
    requires Sound(l) && Locked(l, key, now)
    ensures RecordFailure(l, key, now) == l
    ensures forall a: Attempt :: a.checkedAt <= now ==> Login(l, key, a) == (l, TooMany)
  {
  }

  /** One attempt keeps the counts below the limit and concerns its own source alone. */
  lemma LoginKeepsSound(l: Ledger, key: string, a: Attempt)
    requires Sound(l)
    ensures Sound(Login(l, key, a).0)
    ensures forall k :: k != key ==> EntryOf(Login(l, key, a).0, k) == EntryOf(l, k)
  {
  }

  /** Every failure is either still counted or was spent on a lock, three to a lock. */
  lemma {:induction false} FailuresAreCounted(l: Ledger, key: string, run: seq<Attempt>, a: int, b: int)
    requires Sound(l) && Within(run, a, b)
    requires Accepted !in Verdicts(l, key, run)
    ensures Sound(After(l, key, run))
    ensures Count(Verdicts(l, key, run), Unauthorized) + EntryOf(l, key).count
            == 3 * Locks(l, key, run) + EntryOf(After(l, key, run), key).count
    decreases |run|
  {
    if run == [] {
    } else {
      var (l', v) := Login(l, key, run[0]);
      LoginKeepsSound(l, key, run[0]);
      assert Verdicts(l, key, run)[0] == v;
      assert Verdicts(l, key, run)[1..] == Verdicts(l', key, run[1..]);
      FailuresAreCounted(l', key, run[1..], run[0].recordedAt, b);
    }
  }

  function Later(a: int, b: int): int { if a < b then b else a }

  /** From when on an attempt of the source can be verified. */
  function Opens(l: Ledger, key: string, a: int): int {
    Later(a, EntryOf(l, key).lockedUntil)
  }

  /** Two locks are ten minutes apart, and so is a failure counted after the last lock. */
  lemma {:induction false} LocksAreApart(l: Ledger, key: string, run: seq<Attempt>, a: int, b: int)
    requires Sound(l) && Within(run, a, b)
    requires Accepted !in Verdicts(l, key, run)
    ensures var n := Locks(l, key, run);
            && (n >= 1 ==> 600 * (n - 1) <= b - Opens(l, key, a))
            && (n >= 1 && EntryOf(After(l, key, run), key).count > 0 ==> 600 * n <= b - Opens(l, key, a))
            && (n == 0 && EntryOf(After(l, key, run), key) != EntryOf(l, key) ==> Opens(l, key, a) <= b)
    decreases |run|
  {
    if run == [] {
    } else {
      var (l', v) := Login(l, key, run[0]);
      LoginKeepsSound(l, key, run[0]);
      assert Verdicts(l, key, run)[0] == v;
      assert Verdicts(l, key, run)[1..] == Verdicts(l', key, run[1..]);
      LocksAreApart(l', key, run[1..], run[0].recordedAt, b);
    }
  }

  /** The rate bound: how many guesses of one source are verified in a span of time without a success. */
  lemma RateBound(l: Ledger, key: string, run: seq<Attempt>, a: int, b: int)
    requires Sound(l) && Within(run, a, b)
    requires Accepted !in Verdicts(l, key, run)
    ensures Count(Verdicts(l, key, run), Unauthorized) <= 3 * ((b - a) / 600 + 1)
  {
    FailuresAreCounted(l, key, run, a, b);
    LocksAreApart(l, key, run, a, b);
    var n := Locks(l, key, run);
    var q := (b - a) / LOCK_SECONDS;
    if n >= 1 {
      assert LOCK_SECONDS * (n - 1) <= b - a;
      assert n - 1 <= q;
      if EntryOf(After(l, key, run), key).count > 0 {
        assert LOCK_SECONDS * n <= b - a;
        assert n <= q;
      }
    }
  }

  /** Three wrong guesses at once every ten minutes, `q + 1` times. */
  function Patient(a: int, q: nat): seq<Attempt>
    decreases q
  {
    var guess := Attempt(a, a, false);
    [guess, guess, guess] + if q == 0 then [] else Patient(a + LOCK_SECONDS, q - 1)
  }

  lemma CountStep(vs: seq<Verdict>)
    ensures Count([Unauthorized] + vs, Unauthorized) == Count(vs, Unauthorized) + 1
  {
    assert ([Unauthorized] + vs)[1..] == vs;
  }

  /** One wrong guess while the source is open, and what is left to run. */
  lemma Guess(l: Ledger, key: string, a: int, rest: seq<Attempt>) returns (l': Ledger)
    requires EntryOf(l, key).lockedUntil <= a
    ensures var n := EntryOf(l, key).count + 1;
            EntryOf(l', key)
            == if n >= LIMIT then LoginFailure(0, a + LOCK_SECONDS) else LoginFailure(n, EntryOf(l, key).lockedUntil)
    ensures Verdicts(l, key, [Attempt(a, a, false)] + rest) == [Unauthorized] + Verdicts(l', key, rest)
  {
    var run := [Attempt(a, a, false)] + rest;
    assert run[1..] == rest;
    l' := Login(l, key, run[0]).0;
  }

  /** Three wrong guesses while nothing is counted set the lock. */
  lemma ThreeGuesses(l: Ledger, key: string, a: int, rest: seq<Attempt>) returns (l': Ledger)
    requires EntryOf(l, key).count == 0 && EntryOf(l, key).lockedUntil <= a
    ensures EntryOf(l', key) == LoginFailure(0, a + LOCK_SECONDS)
    ensures var guess := Attempt(a, a, false);
            Verdicts(l, key, [guess, guess, guess] + rest)
            == [Unauthorized, Unauthorized, Unauthorized] + Verdicts(l', key, rest)
  {
    var guess := Attempt(a, a, false);
    var l1 := Guess(l, key, a, [guess, guess] + rest);
    var l2 := Guess(l1, key, a, [guess] + rest);
    l' := Guess(l2, key, a, rest);
    hide Verdicts;
    assert [guess, guess, guess] + rest == [guess] + ([guess, guess] + rest);
    assert [guess, guess] + rest == [guess] + ([guess] + rest);
  }

  /** The patient guesser is verified every time. */
  lemma {:induction false} PatientIsVerified(l: Ledger, key: string, a: int, q: nat)
    requires 0 <= a && EntryOf(l, key).count == 0 && EntryOf(l, key).lockedUntil <= a
    ensures Accepted !in Verdicts(l, key, Patient(a, q))
    ensures Count(Verdicts(l, key, Patient(a, q)), Unauthorized) == LIMIT * (q + 1)
    decreases q
  {
    var rest := if q == 0 then [] else Patient(a + LOCK_SECONDS, q - 1);
    var l' := ThreeGuesses(l, key, a, rest);
    if q > 0 { PatientIsVerified(l', key, a + LOCK_SECONDS, q - 1); }
    var vs := Verdicts(l', key, rest);
    assert Accepted !in vs && Count(vs, Unauthorized) == LIMIT * q;
    var guess := Attempt(a, a, false);
    assert Patient(a, q) == [guess, guess, guess] + rest;
    ThreeMore(vs);
    hide Verdicts, Patient, Count, EntryOf;
  }

  lemma ThreeMore(vs: seq<Verdict>)
    ensures Count([Unauthorized, Unauthorized, Unauthorized] + vs, Unauthorized) == Count(vs, Unauthorized) + 3
    ensures Accepted !in vs ==> Accepted !in [Unauthorized, Unauthorized, Unauthorized] + vs
  {
    CountStep(vs);
    CountStep([Unauthorized] + vs);
    CountStep([Unauthorized] + ([Unauthorized] + vs));
    assert [Unauthorized, Unauthorized, Unauthorized] + vs == [Unauthorized] + ([Unauthorized] + ([Unauthorized] + vs));
  }

  /** The patient guesser needs no more time than ten minutes a lock. */
  lemma {:induction false} PatientIsWithin(a: int, q: nat, b: int)
    requires 0 <= a && a + LOCK_SECONDS * q <= b
    ensures Within(Patient(a, q), a, b)
    decreases q
  {
    var guess := Attempt(a, a, false);
    var rest := if q == 0 then [] else Patient(a + LOCK_SECONDS, q - 1);
    if q > 0 { PatientIsWithin(a + LOCK_SECONDS, q - 1, b); }
    WithinSooner(rest, a, b, if q == 0 then a else a + LOCK_SECONDS);
    WithinStep(rest, a, b);
    WithinStep([guess] + rest, a, b);
    WithinStep([guess] + ([guess] + rest), a, b);
    assert Patient(a, q) == [guess] + ([guess] + ([guess] + rest));
    hide Within, Patient;
  }

  /** In every span, and for every source that is open at its start, there are attempts that meet the bound exactly. */
  lemma RateBoundIsTight(l: Ledger, key: string, a: int, b: int)
    requires 0 <= a <= b && EntryOf(l, key).count == 0 && EntryOf(l, key).lockedUntil <= a
    ensures var run := Patient(a, (b - a) / 600);
            && Within(run, a, b)
            && Accepted !in Verdicts(l, key, run)
            && Count(Verdicts(l, key, run), Unauthorized) == 3 * ((b - a) / 600 + 1)
  {
    hide Within, Patient, Verdicts, Count;
    var q := (b - a) / LOCK_SECONDS;
    PatientIsWithin(a, q, b);
    PatientIsVerified(l, key, a, q);
  }

  lemma WithinSooner(run: seq<Attempt>, a: int, b: int, a': int)
    requires Within(run, a', b) && 0 <= a <= a'
    ensures Within(run, a, b)
  {
  }

  lemma WithinStep(run: seq<Attempt>, a: int, b: int)
    requires Within(run, a, b)
    ensures Within([Attempt(a, a, false)] + run, a, b)
  {
    assert ([Attempt(a, a, false)] + run)[1..] == run;
  }
}
