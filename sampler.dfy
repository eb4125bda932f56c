/** The bounded-retry unique-sampling loop of
    src/ui/commands/cli_rng_gen_raw_interactions.rs, lines 286-319.

    The random generator is an oracle `gen`: `gen(k)` is what the k-th call of
    the generator returns (the random source is seeded once and advanced by
    every call, so the k-th outcome is fixed by the seed and the generation
    context). Writing an interaction to disk is modelled as appending the file
    name and the interaction to a log. */
module Sampler {
  import opened Machine

  /** One file written by the loop: its name inside the output folder and the
      interaction written into it. */
  datatype Persisted<A> = Persisted(file: string, artifact: A)

  /** Running, or why the loop stopped: the target was reached, the retry
      counter reached zero, or (debug build) the retry counter underflowed. */
  datatype Status = Running | TargetReached | BudgetExhausted | Underflowed

  /** The loop's variables: `x`, `max_tries`, the number of generator calls
      so far, `memoized_ints`, the files written, and the status. */
  datatype LoopState<A> = LoopState(
    produced: nat, tries: u32, attempts: nat, memo: set<A>,
    log: seq<Persisted<A>>, status: Status)

  /** `i<x>.<ext>`, the name of the file that receives the x-th novel interaction. */
  function FileName(ordinal: nat, ext: string): string {
    "i" + Decimal(ordinal) + "." + ext
  }

  /** A file name is `i`, then digits that read back as the ordinal, then a
      dot and the extension. */
  lemma FileNameFormat(ordinal: nat, ext: string)
    ensures var name := FileName(ordinal, ext);
      && |name| >= |ext| + 3 && name[0] == 'i' && name[|name| - |ext| - 1] == '.'
      && name[|name| - |ext|..] == ext
      && AllDigits(name[1..|name| - |ext| - 1])
      && DecimalValue(name[1..|name| - |ext| - 1]) == ordinal
  {
    DecimalRoundTrip(ordinal);
    var name := FileName(ordinal, ext);
    assert name[1..|name| - |ext| - 1] == Decimal(ordinal);
  }

  /** No two ordinals share a file name. */
  lemma FileNameInjective(m: nat, n: nat, ext: string)
    requires FileName(m, ext) == FileName(n, ext)
    ensures m == n
  {
    var dm, dn := Decimal(m), Decimal(n);
    var s := FileName(m, ext);
    assert s == "i" + dm + "." + ext;
    assert s == "i" + dn + "." + ext;
    assert forall i :: 1 <= i < 1 + |dm| ==> s[i] == dm[i - 1] && s[i] != '.';
    assert forall i :: 1 <= i < 1 + |dn| ==> s[i] == dn[i - 1] && s[i] != '.';
    assert s[1 + |dm|] == '.' && s[1 + |dn|] == '.';
    assert |dm| == |dn|;
    assert dm == s[1..1 + |dm|] == dn;
    DecimalInjective(m, n);
  }

  function Start<A>(budget: u32): LoopState<A> {
    LoopState(0, budget, 0, {}, [], Running)
  }

  /** One pass of the loop body: call the generator; a novel interaction is
      written as `i<x>.<ext>`, memoized and counted; no interaction or a
      duplicate costs one retry, and the loop stops when the counter reaches
      zero (on a `u32`, `<= 0` is `== 0`). */
  function Step<A(==)>(gen: nat -> Option<A>, mode: ArithMode, ext: string, s: LoopState<A>): (r: LoopState<A>)
    ensures r.attempts == s.attempts + 1
    ensures s.log <= r.log && |r.log| <= |s.log| + 1
  {
    var o := gen(s.attempts);
    if o.Some? && o.value !in s.memo then
      s.(produced := s.produced + 1, attempts := s.attempts + 1,
         memo := s.memo + {o.value},
         log := s.log + [Persisted(FileName(s.produced, ext), o.value)])
    else
      match Sub32(mode, s.tries, 1)
      case None => s.(attempts := s.attempts + 1, status := Underflowed)
      case Some(t) =>
        s.(attempts := s.attempts + 1, tries := t,
           status := if t == 0 then BudgetExhausted else Running)
  }

  /** How many more decrements the retry counter can take before it reads
      zero again (a counter at zero wraps round to 2^32 - 1 first). */
  function Reach(t: u32): nat {
    if t == 0 then U32_MODULUS else t
  }

  /** The whole loop, from state `s`, with `while x < number_of_interactions`
      as its guard. */
  function Run<A(==)>(gen: nat -> Option<A>, mode: ArithMode, ext: string, target: u32, s: LoopState<A>): (r: LoopState<A>)
    ensures r.status != Running
    ensures s.status != Running ==> r == s
    ensures s.log <= r.log && s.attempts <= r.attempts
    decreases if s.status == Running then 1 else 0,
              if s.produced < target then target - s.produced else 0,
              Reach(s.tries)
  {
    if s.status != Running then s
    else if s.produced >= target then s.(status := TargetReached)
    else Run(gen, mode, ext, target, Step(gen, mode, ext, s))
  }

  // ---------------------------------------------------------------------
  // Reference definitions

  /** The distinct interactions among the first k generator outcomes, in the
      order of their first appearance. */
  function FirstSeen<A(==)>(gen: nat -> Option<A>, k: nat): seq<A> {
    if k == 0 then []
    else
      var p := FirstSeen(gen, k - 1);
      if gen(k - 1).Some? && gen(k - 1).value !in p then p + [gen(k - 1).value] else p
  }

  /** Generator calls among the first k that produced nothing new. */
  function Misses<A(==)>(gen: nat -> Option<A>, k: nat): nat {
    FirstSeenLength(gen, k);
    k - |FirstSeen(gen, k)|
  }

  /** How many unproductive attempts end the run, from the initial counter:
      `budget` of them; with a counter of 0 the first one underflows, which
      panics in a debug build and wraps in a release build, so that 2^32 are
      needed. */
  function Allowance(mode: ArithMode, budget: u32): nat {
    if budget == 0 && mode == DebugChecks then 1 else Reach(budget)
  }

  /** The retry counter after `misses` decrements from `budget`, wrapping
      below zero (only reached in a release build). */
  function Remaining(budget: u32, misses: nat): int {
    if misses <= budget then budget - misses else U32_MODULUS + budget - misses
  }

  ghost predicate Distinct<A>(s: seq<A>) {
    forall i, j :: 0 <= i < j < |s| ==> s[i] != s[j]
  }

  function Elements<A>(s: seq<A>): set<A> {
    set a | a in s
  }

  // ---------------------------------------------------------------------
  // What FirstSeen is

  lemma {:induction false} FirstSeenLength<A>(gen: nat -> Option<A>, k: nat)
    ensures |FirstSeen(gen, k)| <= k
  {
    if k > 0 { FirstSeenLength(gen, k - 1); }
  }

  lemma {:induction false} FirstSeenDistinct<A>(gen: nat -> Option<A>, k: nat)
    ensures Distinct(FirstSeen(gen, k))
  {
    if k > 0 { FirstSeenDistinct(gen, k - 1); }
  }

  /** Every interaction the first k calls returned is among FirstSeen, and
      FirstSeen holds nothing else. */
  lemma {:induction false} FirstSeenExact<A>(gen: nat -> Option<A>, k: nat)
    ensures forall j :: 0 <= j < k && gen(j).Some? ==> gen(j).value in FirstSeen(gen, k)
    ensures forall a :: a in FirstSeen(gen, k) ==> exists j :: 0 <= j < k && gen(j) == Some(a)
  {
    if k > 0 {
      FirstSeenExact(gen, k - 1);
      var p := FirstSeen(gen, k - 1);
      forall a | a in FirstSeen(gen, k) ensures exists j :: 0 <= j < k && gen(j) == Some(a) {
        if a !in p {
          assert gen(k - 1) == Some(a);
        }
      }
    }
  }

  /** FirstSeen only grows, at most by one interaction per call. */
  lemma {:induction false} FirstSeenPrefix<A>(gen: nat -> Option<A>, j: nat, k: nat)
    requires j <= k
    ensures FirstSeen(gen, j) <= FirstSeen(gen, k)
    ensures |FirstSeen(gen, k)| <= |FirstSeen(gen, j)| + (k - j)
    decreases k - j
  {
    if j < k { FirstSeenPrefix(gen, j, k - 1); }
  }

  lemma {:induction false} DistinctCard<A>(s: seq<A>)
    requires Distinct(s)
    ensures |Elements(s)| == |s|
  {
    if s != [] {
      var t := s[..|s| - 1];
      assert Distinct(t);
      DistinctCard(t);
      assert Elements(s) == Elements(t) + {s[|s| - 1]};
      assert s[|s| - 1] !in Elements(t);
    }
  }

  // ---------------------------------------------------------------------
  // The loop invariant

  /** What holds of the loop's variables before every pass, from the initial
      counter `budget`: the files are `i0`, `i1`, ... holding exactly the
      interactions first seen so far; `memoized_ints` holds the same; the
      counter went down once per unproductive attempt; and every earlier
      attempt left the run below both the target and the allowance. */
  ghost predicate Inv<A>(gen: nat -> Option<A>, mode: ArithMode, ext: string, target: u32, budget: u32, s: LoopState<A>) {
    var seen := FirstSeen(gen, s.attempts);
    && s.produced <= target
    && s.produced <= s.attempts
    && |seen| == s.produced
    && |s.log| == s.produced
    && (forall i :: 0 <= i < |s.log| ==> s.log[i] == Persisted(FileName(i, ext), seen[i]))
    && s.memo == Elements(seen)
    && (forall k :: 0 <= k < s.attempts ==>
          |FirstSeen(gen, k)| < target && Misses(gen, k) < Allowance(mode, budget))
    && (s.status == Underflowed ==> s.tries == 0 && mode == DebugChecks && budget == 0)
    && (s.status != Underflowed ==> s.tries == Remaining(budget, s.attempts - s.produced))
    && (s.status == Running || s.status == TargetReached ==> s.attempts - s.produced < Allowance(mode, budget))
    && (s.status == TargetReached ==> s.produced == target)
    && (s.status == BudgetExhausted ==> s.tries == 0)
    && (s.status == BudgetExhausted || s.status == Underflowed ==>
          s.attempts - s.produced == Allowance(mode, budget) && s.produced < target)
  }

  lemma StartInv<A>(gen: nat -> Option<A>, mode: ArithMode, ext: string, target: u32, budget: u32)
    ensures Inv(gen, mode, ext, target, budget, Start<A>(budget))
  {
    assert Elements<A>([]) == {};
  }

  lemma StepInv<A>(gen: nat -> Option<A>, mode: ArithMode, ext: string, target: u32, budget: u32, s: LoopState<A>)
    requires Inv(gen, mode, ext, target, budget, s)
    requires s.status == Running && s.produced < target
    ensures Inv(gen, mode, ext, target, budget, Step(gen, mode, ext, s))
  {
    var a := s.attempts;
    assert forall k :: 0 <= k < a + 1 ==>
      |FirstSeen(gen, k)| < target && Misses(gen, k) < Allowance(mode, budget) by {
      forall k | 0 <= k < a + 1
        ensures |FirstSeen(gen, k)| < target && Misses(gen, k) < Allowance(mode, budget)
      {
        if k == a {
          assert |FirstSeen(gen, k)| == s.produced;
        }
      }
    }
    if gen(a).Some? && gen(a).value !in s.memo {
      StepNovelInv(gen, mode, ext, target, budget, s);
    } else {
      StepMissInv(gen, mode, ext, target, budget, s);
    }
  }

  /** A pass that finds a novel interaction writes it as the next file and
      memoizes it, which keeps the invariant. */
  lemma StepNovelInv<A>(gen: nat -> Option<A>, mode: ArithMode, ext: string, target: u32, budget: u32, s: LoopState<A>)
    requires Inv(gen, mode, ext, target, budget, s)
    requires s.status == Running && s.produced < target
    requires gen(s.attempts).Some? && gen(s.attempts).value !in s.memo
    requires forall k :: 0 <= k < s.attempts + 1 ==>
      |FirstSeen(gen, k)| < target && Misses(gen, k) < Allowance(mode, budget)
    ensures Inv(gen, mode, ext, target, budget, Step(gen, mode, ext, s))
  {
    var o := gen(s.attempts).value;
    var seen := FirstSeen(gen, s.attempts);
    var seen' := seen + [o];
    assert FirstSeen(gen, s.attempts + 1) == seen';
    assert Elements(seen') == Elements(seen) + {o};
    var s' := Step(gen, mode, ext, s);
    assert s'.log == s.log + [Persisted(FileName(s.produced, ext), o)];
    forall i | 0 <= i < |s'.log|
      ensures s'.log[i] == Persisted(FileName(i, ext), seen'[i])
    {
      if i < |s.log| {
        assert s'.log[i] == s.log[i];
      }
    }
  }

  /** A pass that finds nothing new leaves the files and the memo alone and
      charges the retry counter, which keeps the invariant. */
  lemma StepMissInv<A>(gen: nat -> Option<A>, mode: ArithMode, ext: string, target: u32, budget: u32, s: LoopState<A>)
    requires Inv(gen, mode, ext, target, budget, s)
    requires s.status == Running && s.produced < target
    requires !(gen(s.attempts).Some? && gen(s.attempts).value !in s.memo)
    requires forall k :: 0 <= k < s.attempts + 1 ==>
      |FirstSeen(gen, k)| < target && Misses(gen, k) < Allowance(mode, budget)
    ensures Inv(gen, mode, ext, target, budget, Step(gen, mode, ext, s))
  {
    assert FirstSeen(gen, s.attempts + 1) == FirstSeen(gen, s.attempts);
  }

  /** The invariant survives the rest of the loop, which always stops. */
  lemma {:induction false} RunInv<A>(gen: nat -> Option<A>, mode: ArithMode, ext: string, target: u32, budget: u32, s: LoopState<A>)
    requires Inv(gen, mode, ext, target, budget, s)
    ensures Inv(gen, mode, ext, target, budget, Run(gen, mode, ext, target, s))
    ensures Run(gen, mode, ext, target, s).status != Running
    decreases if s.status == Running then 1 else 0,
              if s.produced < target then target - s.produced else 0,
              Reach(s.tries)
  {
    if s.status == Running && s.produced < target {
      StepInv(gen, mode, ext, target, budget, s);
      RunInv(gen, mode, ext, target, budget, Step(gen, mode, ext, s));
    }
  }

  // ---------------------------------------------------------------------
  // Properties of a whole run

  /** What a run of the loop from a fresh state does, for every generator. */
  lemma RunProperties<A>(gen: nat -> Option<A>, mode: ArithMode, ext: string, target: u32, budget: u32)
    ensures var r := Run(gen, mode, ext, target, Start<A>(budget));
      && r.status != Running
      // at most the target, exactly the target iff the run succeeded
      && |r.log| == r.produced <= target
      && (r.status == TargetReached <==> r.produced == target)
      // the files are i0, i1, ... in order, one per novel interaction
      && (forall i :: 0 <= i < |r.log| ==> r.log[i].file == FileName(i, ext))
      && |FirstSeen(gen, r.attempts)| == r.produced
      && (forall i :: 0 <= i < |r.log| ==> r.log[i].artifact == FirstSeen(gen, r.attempts)[i])
      // no two files hold equal interactions, and the memo mirrors the files
      && (forall i, j :: 0 <= i < j < |r.log| ==> r.log[i].artifact != r.log[j].artifact)
      && r.memo == Elements(FirstSeen(gen, r.attempts))
      && |r.memo| == r.produced
      // every attempt either produced or cost a retry, and retries are bounded
      && r.produced <= r.attempts
      && r.produced + Misses(gen, r.attempts) == r.attempts
      && r.attempts <= r.produced + Allowance(mode, budget)
      && (r.status == BudgetExhausted || r.status == Underflowed <==>
            Misses(gen, r.attempts) == Allowance(mode, budget))
      && (r.status == Underflowed ==> mode == DebugChecks && budget == 0 && r.attempts == r.produced + 1)
      && (r.status == Underflowed <==> mode == DebugChecks && budget == 0 && r.produced < target)
      && (r.status != Underflowed ==> r.tries == Remaining(budget, r.attempts - r.produced))
      // the run stops at the first moment it may: no extra attempt
      && (forall k :: 0 <= k < r.attempts ==>
            |FirstSeen(gen, k)| < target && Misses(gen, k) < Allowance(mode, budget))
  {
    StartInv(gen, mode, ext, target, budget);
    RunInv(gen, mode, ext, target, budget, Start<A>(budget));
    var r := Run(gen, mode, ext, target, Start<A>(budget));
    FirstSeenDistinct(gen, r.attempts);
    DistinctCard(FirstSeen(gen, r.attempts));
  }

  /** A target of zero makes no generator call and writes nothing. */
  lemma TargetZero<A>(gen: nat -> Option<A>, mode: ArithMode, ext: string, budget: u32)
    ensures Run(gen, mode, ext, 0, Start<A>(budget)) == LoopState(0, budget, 0, {}, [], TargetReached)
  {
  }

  /** A generator that returns a new interaction every time fills the target
      in exactly `target` calls, whatever the budget. */
  lemma AlwaysNovel<A>(gen: nat -> Option<A>, f: nat -> A, mode: ArithMode, ext: string, target: u32, budget: u32)
    requires forall k :: gen(k) == Some(f(k))
    requires forall i, j :: f(i) == f(j) ==> i == j
    ensures var r := Run(gen, mode, ext, target, Start<A>(budget));
      && r.status == TargetReached && r.produced == target && r.attempts == target
      && |r.log| == target
      && (forall i :: 0 <= i < target ==> r.log[i] == Persisted(FileName(i, ext), f(i)))
  {
    RunProperties(gen, mode, ext, target, budget);
    var r := Run(gen, mode, ext, target, Start<A>(budget));
    NovelPrefix(gen, f, r.attempts);
  }

  lemma {:induction false} NovelPrefix<A>(gen: nat -> Option<A>, f: nat -> A, k: nat)
    requires forall k :: gen(k) == Some(f(k))
    requires forall i, j :: f(i) == f(j) ==> i == j
    ensures |FirstSeen(gen, k)| == k
    ensures forall i :: 0 <= i < k ==> FirstSeen(gen, k)[i] == f(i)
  {
    if k > 0 {
      NovelPrefix(gen, f, k - 1);
      var p := FirstSeen(gen, k - 1);
      assert forall i :: 0 <= i < |p| ==> p[i] == f(i) && p[i] != f(k - 1);
      assert f(k - 1) !in p;
    }
  }

  /** A generator that always returns the same interaction: it is written
      once, and every later call is a duplicate that costs a retry, so with
      a target of at least two the run ends after budget + 1 calls. */
  lemma AlwaysSame<A>(gen: nat -> Option<A>, c: A, mode: ArithMode, ext: string, target: u32, budget: u32)
    requires forall k :: gen(k) == Some(c)
    requires target >= 2 && budget >= 1
    ensures var r := Run(gen, mode, ext, target, Start<A>(budget));
      && r.status == BudgetExhausted && r.produced == 1 && r.attempts == budget + 1
      && r.log == [Persisted(FileName(0, ext), c)] && r.tries == 0
  {
    RunProperties(gen, mode, ext, target, budget);
    var r := Run(gen, mode, ext, target, Start<A>(budget));
    if r.attempts > 0 {
      SameSeen(gen, c, r.attempts);
    }
  }

  lemma {:induction false} SameSeen<A>(gen: nat -> Option<A>, c: A, k: nat)
    requires forall k :: gen(k) == Some(c)
    requires k >= 1
    ensures FirstSeen(gen, k) == [c]
  {
    if k > 1 { SameSeen(gen, c, k - 1); }
  }

  /** A retry counter of zero and a first call that yields nothing: a debug
      build panics on that first call; a release build wraps the counter and
      keeps trying. */
  lemma ZeroBudgetFirstMiss<A>(gen: nat -> Option<A>, mode: ArithMode, ext: string, target: u32)
    requires target >= 1 && gen(0).None?
    ensures var r := Run(gen, mode, ext, target, Start<A>(0));
      && (mode == DebugChecks ==> r.status == Underflowed && r.attempts == 1 && r.log == [])
      && (mode == ReleaseWrap ==> r.status != Underflowed && r.attempts > 1)
  {
    RunProperties(gen, mode, ext, target, 0);
    assert FirstSeen(gen, 1) == [];
  }

  /** A retry counter of zero in a debug build: the first unproductive call
      panics even after files were written. Here a constant generator writes
      `i0` on the first call and panics on the second. */
  lemma ZeroBudgetLaterMiss<A>(gen: nat -> Option<A>, c: A, ext: string, target: u32)
    requires forall k :: gen(k) == Some(c)
    requires target >= 2
    ensures var r := Run(gen, DebugChecks, ext, target, Start<A>(0));
      && r.status == Underflowed && r.attempts == 2
      && r.log == [Persisted(FileName(0, ext), c)]
  {
    RunProperties(gen, DebugChecks, ext, target, 0);
    var r := Run(gen, DebugChecks, ext, target, Start<A>(0));
    SameSeen(gen, c, r.attempts);
  }

  // ---------------------------------------------------------------------
  // The loop itself

  /** The loop of lines 286-319, with its own variables. */
  method Sample<A(==)>(gen: nat -> Option<A>, mode: ArithMode, ext: string, target: u32, budget: u32)
    returns (r: LoopState<A>)
    ensures r == Run(gen, mode, ext, target, Start<A>(budget))
    ensures r.status != Running
    ensures |r.log| == r.produced <= target
    ensures r.status == TargetReached <==> r.produced == target
    ensures forall i :: 0 <= i < |r.log| ==> r.log[i].file == FileName(i, ext)
    ensures forall i, j :: 0 <= i < j < |r.log| ==> r.log[i].artifact != r.log[j].artifact
    ensures |r.memo| == r.produced
    ensures r.attempts <= r.produced + Allowance(mode, budget)
  {
    var memoized: set<A> := {};
    var log: seq<Persisted<A>> := [];
    var x: nat := 0;
    var maxTries := budget;
    var attempts: nat := 0;
    var status := Running;
    while x < target
      invariant x <= target && status == Running
      invariant Run(gen, mode, ext, target, LoopState(x, maxTries, attempts, memoized, log, Running))
             == Run(gen, mode, ext, target, Start<A>(budget))
      decreases target - x, Reach(maxTries)
    {
      ghost var before := LoopState(x, maxTries, attempts, memoized, log, Running);
      var gotOne := false;
      var o := gen(attempts);
      attempts := attempts + 1;
      if o.Some? {
        if o.value !in memoized {
          gotOne := true;
          log := log + [Persisted(FileName(x, ext), o.value)];
          memoized := memoized + {o.value};
          x := x + 1;
        }
      }
      if !gotOne {
        var t := Sub32(mode, maxTries, 1);
        if t.None? {
          status := Underflowed;
          assert LoopState(x, maxTries, attempts, memoized, log, status) == Step(gen, mode, ext, before);
          break;
        }
        maxTries := t.value;
        if maxTries == 0 {
          status := BudgetExhausted;
          assert LoopState(x, maxTries, attempts, memoized, log, status) == Step(gen, mode, ext, before);
          break;
        }
      }
      assert LoopState(x, maxTries, attempts, memoized, log, Running) == Step(gen, mode, ext, before);
    }
    if status == Running {
      status := TargetReached;
    }
    r := LoopState(x, maxTries, attempts, memoized, log, status);
    RunProperties(gen, mode, ext, target, budget);
  }
}
