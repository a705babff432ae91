// Steps that put contacts down or lift them, on a device with so many slots: when a list of steps runs
// out of them (crates/wroid-inject/src/transition.rs).

module Slots {

  // Some step would put a contact down on a full device.
  predicate Overflows(count: int, steps: seq<int>, capacity: nat)
    decreases |steps|
  {
    steps != [] && ((steps[0] > 0 && count >= capacity) || Overflows(count + steps[0], steps[1..], capacity))
  }

  function Total(steps: seq<int>): int {
    if steps == [] then 0 else steps[0] + Total(steps[1..])
  }

  // Read without the recursion: at some moment more contacts would be down than the device has slots.
  lemma {:induction false} OverflowsMeansPeak(count: int, steps: seq<int>, capacity: nat)
    requires count <= capacity && forall k | 0 <= k < |steps| :: steps[k] <= 1
    ensures Overflows(count, steps, capacity) <==> exists k :: 0 <= k <= |steps| && count + Total(steps[..k]) > capacity
    decreases |steps|
  {
    if steps != [] && !(steps[0] > 0 && count >= capacity) {
      var rest := steps[1..];
      OverflowsMeansPeak(count + steps[0], rest, capacity);
      forall k | 0 <= k <= |rest| ensures Total(steps[..k + 1]) == steps[0] + Total(rest[..k]) {
        assert steps[..k + 1][1..] == rest[..k];
      }
      if k :| 0 <= k <= |steps| && count + Total(steps[..k]) > capacity {
        assert k > 0 && Total(steps[..k - 1 + 1]) == steps[0] + Total(rest[..k - 1]);
      }
    } else if steps != [] {
      assert steps[..1][1..] == [] && count + Total(steps[..1]) > capacity;
    }
  }

  // One step and the number of contacts: it adds what it should, and apart from the device it fails
  // exactly if it puts a contact down on a full device.
  predicate StepCounts(ok: bool, refused: bool, step: int, before: nat, after: nat, capacity: nat) {
    && (ok ==> after == before + step)
    && (!ok && !refused <==> step > 0 && before >= capacity)
  }

  // With i of the steps taken, the question is left to the others.
  ghost predicate Ahead(start: int, steps: seq<int>, i: nat, count: int, capacity: nat) {
    i <= |steps| && (Overflows(start, steps, capacity) <==> Overflows(count, steps[i..], capacity))
  }

  lemma AheadOfAll(steps: seq<int>, count: int, capacity: nat)
    ensures Ahead(count, steps, 0, count, capacity)
  {
  }

  lemma AheadOfRest(start: int, front: seq<int>, rest: seq<int>, count: int, capacity: nat)
    requires Ahead(start, front + rest, |front|, count, capacity)
    ensures Overflows(start, front + rest, capacity) <==> Overflows(count, rest, capacity)
  {
  }

  lemma AheadOfNothing(start: int, steps: seq<int>, count: int, capacity: nat)
    requires Ahead(start, steps, |steps|, count, capacity)
    ensures !Overflows(start, steps, capacity)
  {
  }

  // A step that failed for want of a slot answers it.
  lemma StepTaken(start: int, steps: seq<int>, i: nat, ok: bool, refused: bool, before: nat, after: nat, capacity: nat)
    requires i < |steps| && StepCounts(ok, refused, steps[i], before, after, capacity)
    requires Ahead(start, steps, i, before, capacity)
    ensures ok ==> Ahead(start, steps, i + 1, after, capacity)
    ensures !ok && !refused ==> Overflows(start, steps, capacity)
  {
  }

  // Several steps, with how they came out: on success they add what they should and never ran out, and
  // apart from the device they fail only by running out.
  predicate Staged(ok: bool, refused: bool, steps: seq<int>, before: nat, after: nat, capacity: nat) {
    && (ok ==> after == before + Total(steps) && !Overflows(before, steps, capacity))
    && (!ok && !refused ==> Overflows(before, steps, capacity))
  }

  lemma StagedNone(count: nat, capacity: nat)
    ensures Staged(true, false, [], count, count, capacity)
  {
  }

  lemma StagedOne(ok: bool, refused: bool, step: int, before: nat, after: nat, capacity: nat)
    requires StepCounts(ok, refused, step, before, after, capacity)
    ensures Staged(ok, refused, [step], before, after, capacity)
  {
  }

  lemma StagedMeans(ok: bool, refused: bool, steps: seq<int>, before: nat, after: nat, capacity: nat)
    requires Staged(ok, refused, steps, before, after, capacity)
    ensures ok ==> !Overflows(before, steps, capacity)
    ensures !ok && !refused ==> Overflows(before, steps, capacity)
  {
  }

  // A write refused after the contacts were already down fails for no other reason.
  lemma StagedRefused(steps: seq<int>, before: nat, after: nat, capacity: nat)
    ensures Staged(false, true, steps, before, after, capacity)
  {
  }

  // A contact that is put down and lifted again.
  lemma StagedUpDown(ok: bool, refused: bool, before: nat, after: nat, capacity: nat)
    requires ok ==> after == before && before < capacity
    requires !ok && !refused ==> before >= capacity
    ensures Staged(ok, refused, [1, -1], before, after, capacity)
  {
  }

  lemma {:induction false} TotalConcat(a: seq<int>, b: seq<int>)
    ensures Total(a + b) == Total(a) + Total(b)
  {
    if a == [] {
      assert a + b == b;
    } else {
      assert (a + b)[1..] == a[1..] + b;
      TotalConcat(a[1..], b);
    }
  }

  lemma {:induction false} OverflowsConcat(count: int, a: seq<int>, b: seq<int>, capacity: nat)
    ensures Overflows(count, a + b, capacity) <==>
              Overflows(count, a, capacity) || Overflows(count + Total(a), b, capacity)
    decreases |a|
  {
    if a == [] {
      assert a + b == b;
    } else {
      assert (a + b)[1..] == a[1..] + b;
      OverflowsConcat(count + a[0], a[1..], b, capacity);
    }
  }

  // Stages one after the other.
  lemma StagedThen(steps: seq<int>, more: seq<int>, ok: bool, refused: bool, start: nat, between: nat, end: nat,
                   capacity: nat)
    requires Staged(true, false, steps, start, between, capacity)
    requires Staged(ok, refused, more, between, end, capacity)
    ensures Staged(ok, refused, steps + more, start, end, capacity)
  {
    TotalConcat(steps, more);
    OverflowsConcat(start, steps, more, capacity);
  }

  // A stage that failed is not followed by another.
  lemma StagedShort(steps: seq<int>, more: seq<int>, refused: bool, start: nat, end: nat, capacity: nat)
    requires Staged(false, refused, steps, start, end, capacity)
    ensures Staged(false, refused, steps + more, start, end, capacity)
  {
    OverflowsConcat(start, steps, more, capacity);
  }

  // The lists of the first n of several, one after the other.
  function Chain(lists: seq<seq<int>>, n: nat): seq<int>
    requires n <= |lists|
  {
    if n == 0 then [] else Chain(lists, n - 1) + lists[n - 1]
  }

  lemma ChainNone(lists: seq<seq<int>>, count: nat, capacity: nat)
    ensures Staged(true, false, Chain(lists, 0), count, count, capacity)
  {
  }

  lemma {:induction false} ChainShort(lists: seq<seq<int>>, i: nat, n: nat, refused: bool, start: nat, end: nat,
                                      capacity: nat)
    requires i <= n <= |lists| && Staged(false, refused, Chain(lists, i), start, end, capacity)
    ensures Staged(false, refused, Chain(lists, n), start, end, capacity)
    decreases n - i
  {
    if i < n {
      StagedShort(Chain(lists, i), lists[i], refused, start, end, capacity);
      ChainShort(lists, i + 1, n, refused, start, end, capacity);
    }
  }

  // Contacts that are put down and lifted again, one after the other, run out of slots only if there is
  // none to begin with.
  lemma {:induction false} ChainUpDown(lists: seq<seq<int>>, n: nat, count: nat, capacity: nat)
    requires n <= |lists| && forall i | 0 <= i < n :: lists[i] == [] || lists[i] == [1, -1]
    ensures Total(Chain(lists, n)) == 0
    ensures Overflows(count, Chain(lists, n), capacity) <==>
              count >= capacity && exists i :: 0 <= i < n && lists[i] != []
  {
    if n > 0 {
      ChainUpDown(lists, n - 1, count, capacity);
      var front, last := Chain(lists, n - 1), lists[n - 1];
      TotalConcat(front, last);
      OverflowsConcat(count, front, last, capacity);
      UpDown(last, count, capacity);
    }
  }

  lemma UpDown(steps: seq<int>, count: nat, capacity: nat)
    requires steps == [] || steps == [1, -1]
    ensures Total(steps) == 0 && (Overflows(count, steps, capacity) <==> count >= capacity && steps != [])
  {
    assert [1, -1][1..] == [-1] && [-1][1..] == [];
  }

  // One more list; and when it fails, none of the others follows.
  lemma ChainStep(lists: seq<seq<int>>, i: nat, ok: bool, refused: bool, start: nat, between: nat, end: nat,
                  capacity: nat)
    requires i < |lists| && Staged(true, false, Chain(lists, i), start, between, capacity)
    requires Staged(ok, refused, lists[i], between, end, capacity)
    ensures Staged(ok, refused, Chain(lists, i + 1), start, end, capacity)
    ensures !ok ==> Staged(false, refused, Chain(lists, |lists|), start, end, capacity)
  {
    hide Staged;
    StagedThen(Chain(lists, i), lists[i], ok, refused, start, between, end, capacity);
    if !ok {
      ChainShort(lists, i + 1, |lists|, refused, start, end, capacity);
    }
  }
}
