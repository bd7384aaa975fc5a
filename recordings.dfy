/**
 * The list of finished recordings of a speaking session, in completion
 * order, with at most one entry per step: a new recording of a step
 * replaces the earlier one and goes to the end of the list.
 */
module Recordings {

  /** One finished recording: the step it answers, the object URL of its
      audio (an opaque token here) and the label (`caption`, as `label` is a Dafny keyword) shown on the review screen. */
  datatype Recording = Recording(stepId: int, url: string, caption: string)

  predicate HasStep(list: seq<Recording>, id: int) {
    exists k :: 0 <= k < |list| && list[k].stepId == id
  }

  /** No two entries of the list belong to the same step. */
  predicate NoDuplicateSteps(list: seq<Recording>) {
    forall i, j :: 0 <= i < j < |list| ==> list[i].stepId != list[j].stepId
  }

  /** The entries of `list` that do not belong to step `id`, in order. */
  function WithoutStep(list: seq<Recording>, id: int): (r: seq<Recording>)
    ensures |r| <= |list|
    ensures forall e :: e in r <==> e in list && e.stepId != id
  {
    if list == [] then []
    else (if list[0].stepId != id then [list[0]] else []) + WithoutStep(list[1..], id)
  }

  /** Filtering keeps a list free of duplicate steps. */
  lemma {:induction false} WithoutStepKeepsNoDuplicates(list: seq<Recording>, id: int)
    requires NoDuplicateSteps(list)
    ensures NoDuplicateSteps(WithoutStep(list, id))
  {
    if list != [] {
      var tail := list[1..];
      assert NoDuplicateSteps(tail) by {
        forall i, j | 0 <= i < j < |tail| ensures tail[i].stepId != tail[j].stepId {
          assert tail[i] == list[i + 1] && tail[j] == list[j + 1];
        }
      }
      WithoutStepKeepsNoDuplicates(tail, id);
      var rest := WithoutStep(tail, id);
      if list[0].stepId != id {
        var r := [list[0]] + rest;
        forall j | 0 <= j < |rest| ensures list[0].stepId != rest[j].stepId {
          assert rest[j] in tail;
          var m :| 0 <= m < |tail| && tail[m] == rest[j];
          assert tail[m] == list[m + 1];
        }
        forall i, j | 0 <= i < j < |r| ensures r[i].stepId != r[j].stepId {
          assert r[j] == rest[j - 1];
          if i > 0 {
            assert r[i] == rest[i - 1];
          }
        }
      }
    }
  }

  /** The update of the list when a recording finishes: drop any entry of the
      same step, then append the new one. */
  function Replace(list: seq<Recording>, entry: Recording): (r: seq<Recording>)
    ensures |r| >= 1 && r[|r| - 1] == entry
    ensures forall e :: e in r <==> e == entry || (e in list && e.stepId != entry.stepId)
  {
    WithoutStep(list, entry.stepId) + [entry]
  }

  /** Filtering distributes over concatenation, so it keeps relative order. */
  lemma {:induction false} WithoutStepConcat(a: seq<Recording>, b: seq<Recording>, id: int)
    ensures WithoutStep(a + b, id) == WithoutStep(a, id) + WithoutStep(b, id)
  {
    if a == [] {
      assert a + b == b;
    } else {
      assert (a + b)[1..] == a[1..] + b;
      WithoutStepConcat(a[1..], b, id);
    }
  }

  /** Filtering out a step the list does not hold changes nothing. */
  lemma {:induction false} WithoutAbsentStep(list: seq<Recording>, id: int)
    requires !HasStep(list, id)
    ensures WithoutStep(list, id) == list
  {
    if list != [] {
      assert !HasStep(list[1..], id) by {
        forall k | 0 <= k < |list[1..]| ensures list[1..][k].stepId != id {
          assert list[1..][k] == list[k + 1];
        }
      }
      WithoutAbsentStep(list[1..], id);
    }
  }

  /** The list never holds two entries of one step. */
  lemma ReplaceKeepsNoDuplicates(list: seq<Recording>, entry: Recording)
    requires NoDuplicateSteps(list)
    ensures NoDuplicateSteps(Replace(list, entry))
  {
    var w := WithoutStep(list, entry.stepId);
    WithoutStepKeepsNoDuplicates(list, entry.stepId);
    assert forall k :: 0 <= k < |w| ==> w[k] in w;
  }

  /** A first recording of a step is appended after all earlier entries. */
  lemma ReplaceAbsent(list: seq<Recording>, entry: Recording)
    requires !HasStep(list, entry.stepId)
    ensures Replace(list, entry) == list + [entry]
  {
    WithoutAbsentStep(list, entry.stepId);
  }

  /** A new recording of a step already in the list takes its entry out of
      its place and goes to the end; every other entry keeps its order. */
  lemma ReplaceExisting(before: seq<Recording>, earlier: Recording, after: seq<Recording>, entry: Recording)
    requires earlier.stepId == entry.stepId
    requires !HasStep(before, entry.stepId) && !HasStep(after, entry.stepId)
    ensures Replace(before + [earlier] + after, entry) == before + after + [entry]
  {
    var id := entry.stepId;
    var head := before + [earlier];
    WithoutStepConcat(head, after, id);
    WithoutStepConcat(before, [earlier], id);
    WithoutAbsentStep(before, id);
    WithoutAbsentStep(after, id);
    assert [earlier][1..] == [];
    assert WithoutStep([earlier], id) == [];
    assert WithoutStep(head, id) == before;
    assert WithoutStep(head + after, id) == before + after;
  }

  /** Replacing grows the list by one exactly when the step is new to it. */
  lemma ReplaceLength(list: seq<Recording>, entry: Recording)
    requires NoDuplicateSteps(list)
    ensures |Replace(list, entry)| == if HasStep(list, entry.stepId) then |list| else |list| + 1
  {
    var id := entry.stepId;
    if HasStep(list, id) {
      var k :| 0 <= k < |list| && list[k].stepId == id;
      var before, after := list[..k], list[k + 1..];
      assert list == before + [list[k]] + after;
      assert !HasStep(before, id) by {
        forall m | 0 <= m < |before| ensures before[m].stepId != id {
          assert before[m] == list[m];
        }
      }
      assert !HasStep(after, id) by {
        forall m | 0 <= m < |after| ensures after[m].stepId != id {
          assert after[m] == list[k + 1 + m];
        }
      }
      ReplaceExisting(before, list[k], after, entry);
    } else {
      ReplaceAbsent(list, entry);
    }
  }
}
