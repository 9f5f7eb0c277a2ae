/** Operations on a task list that the handlers and the monthly reset share: flip one task's
    completion, drop a task by identifier, clear every completion flag, count completions. */
module Tasks {
  import opened Optional
  import opened Types

  /** `a` and `b` are the same task, whatever their `completed` flags say. */
  predicate SameIdentity(a: Task, b: Task) {
    a.id == b.id && a.name == b.name && a.difficulty == b.difficulty
  }

  /** Some task of `ts` has identifier `id`. */
  predicate HasId(ts: seq<Task>, id: string) {
    exists k :: 0 <= k < |ts| && ts[k].id == id
  }

  /** No two tasks of `ts` share an identifier. */
  predicate UniqueIds(ts: seq<Task>) {
    forall i, j :: 0 <= i < j < |ts| ==> ts[i].id != ts[j].id
  }

  /** The checkbox handler's `map`: every task whose id is `id` has its completion negated;
      every other task, and the order, stay as they were. */
  function Toggle(ts: seq<Task>, id: string): (r: seq<Task>)
    ensures |r| == |ts|
    ensures forall k :: 0 <= k < |ts| ==> SameIdentity(r[k], ts[k])
    ensures forall k :: 0 <= k < |ts| ==> r[k].completed == (ts[k].completed != (ts[k].id == id))
  {
    if ts == [] then []
    else
      var t := ts[0];
      [if t.id == id then t.(completed := !t.completed) else t] + Toggle(ts[1..], id)
  }

  /** The delete handler's `filter`: keeps exactly the tasks whose id is not `id`. */
  function Remove(ts: seq<Task>, id: string): (r: seq<Task>)
    ensures |r| <= |ts|
    ensures forall t :: t in r <==> t in ts && t.id != id
    ensures !HasId(ts, id) ==> r == ts
  {
    if ts == [] then []
    else
      assert !HasId(ts, id) ==> !HasId(ts[1..], id) by {
        if HasId(ts[1..], id) {
          var k :| 0 <= k < |ts[1..]| && ts[1..][k].id == id;
          assert ts[k + 1].id == id;
        }
      }
      if ts[0].id == id then Remove(ts[1..], id)
      else [ts[0]] + Remove(ts[1..], id)
  }

  /** `reset` is `ts` with every completion cleared: same length, same tasks in the same order,
      none completed. */
  predicate IsClearedCopy(reset: seq<Task>, ts: seq<Task>) {
    && |reset| == |ts|
    && forall k :: 0 <= k < |ts| ==> SameIdentity(reset[k], ts[k]) && !reset[k].completed
  }

  /** The reset's `map(task => ({ ...task, completed: false }))`: the same tasks in the same
      order, none of them completed. */
  function ClearCompleted(ts: seq<Task>): (r: seq<Task>)
    ensures IsClearedCopy(r, ts)
  {
    if ts == [] then [] else [ts[0].(completed := false)] + ClearCompleted(ts[1..])
  }

  /** `ts.filter(t => t.completed).length`. */
  function CompletedCount(ts: seq<Task>): (n: nat)
    ensures n <= |ts|
    ensures n == 0 <==> forall k :: 0 <= k < |ts| ==> !ts[k].completed
    ensures n == |ts| <==> forall k :: 0 <= k < |ts| ==> ts[k].completed
  {
    if ts == [] then 0
    else
      assert forall k :: 1 <= k < |ts| ==> ts[k] == ts[1..][k - 1];
      (if ts[0].completed then 1 else 0) + CompletedCount(ts[1..])
  }

  /** Toggling the same identifier twice restores the list. */
  lemma ToggleTwice(ts: seq<Task>, id: string)
    ensures Toggle(Toggle(ts, id), id) == ts
  {
  }

  /** Toggling an identifier no task carries changes nothing. */
  lemma ToggleAbsent(ts: seq<Task>, id: string)
    requires !HasId(ts, id)
    ensures Toggle(ts, id) == ts
  {
  }

  /** Removal keeps the survivors in their original relative order: it distributes over
      concatenation, so the survivors of a prefix come before those of the rest. */
  lemma {:induction false} RemoveConcat(a: seq<Task>, b: seq<Task>, id: string)
    ensures Remove(a + b, id) == Remove(a, id) + Remove(b, id)
  {
    if a == [] {
      assert a + b == b;
    } else {
      assert (a + b)[1..] == a[1..] + b;
      RemoveConcat(a[1..], b, id);
    }
  }

  /** A single task survives removal exactly when its id differs. */
  lemma RemoveSingle(t: Task, id: string)
    ensures Remove([t], id) == if t.id == id then [] else [t]
  {
  }

  /** Clearing completions twice is the same as clearing them once. */
  lemma ClearCompletedIdempotent(ts: seq<Task>)
    ensures ClearCompleted(ClearCompleted(ts)) == ClearCompleted(ts)
  {
  }

  /** Toggling preserves unique identifiers. */
  lemma ToggleKeepsUnique(ts: seq<Task>, id: string)
    requires UniqueIds(ts)
    ensures UniqueIds(Toggle(ts, id))
  {
  }

  /** Clearing completions preserves unique identifiers. */
  lemma ClearKeepsUnique(ts: seq<Task>)
    requires UniqueIds(ts)
    ensures UniqueIds(ClearCompleted(ts))
  {
  }

  /** Removal preserves unique identifiers. */
  lemma {:induction false} RemoveKeepsUnique(ts: seq<Task>, id: string)
    requires UniqueIds(ts)
    ensures UniqueIds(Remove(ts, id))
  {
    if ts != [] {
      var tail := ts[1..];
      assert UniqueIds(tail) by {
        forall i, j | 0 <= i < j < |tail| ensures tail[i].id != tail[j].id {
          assert tail[i] == ts[i + 1] && tail[j] == ts[j + 1];
        }
      }
      RemoveKeepsUnique(tail, id);
      if ts[0].id != id {
        var rest := Remove(tail, id);
        var r := [ts[0]] + rest;
        forall j | 0 < j < |r| ensures r[0].id != r[j].id {
          assert r[j] == rest[j - 1];
          assert r[j] in tail;
          var m :| 0 <= m < |tail| && tail[m] == r[j];
          assert ts[m + 1] == r[j];
        }
      }
    }
  }

  /** Appending a task whose identifier is new keeps identifiers unique. */
  lemma AppendKeepsUnique(ts: seq<Task>, t: Task)
    requires UniqueIds(ts)
    requires !HasId(ts, t.id)
    ensures UniqueIds(ts + [t])
  {
  }

  /** After every completion is cleared, the completed count is zero. */
  lemma ClearedCountIsZero(ts: seq<Task>)
    ensures CompletedCount(ClearCompleted(ts)) == 0
  {
  }

  /** The completed count of a concatenation is the sum of the parts' counts. Together with
      `CompletedCountSingle` this pins the count down as the number of completed tasks. */
  lemma {:induction false} CompletedCountConcat(a: seq<Task>, b: seq<Task>)
    ensures CompletedCount(a + b) == CompletedCount(a) + CompletedCount(b)
    decreases |a|
  {
    if a == [] {
      assert a + b == b;
    } else {
      assert (a + b)[0] == a[0] && (a + b)[1..] == a[1..] + b;
      CompletedCountConcat(a[1..], b);
    }
  }

  /** A single task counts one exactly when it is completed. */
  lemma CompletedCountSingle(t: Task)
    ensures CompletedCount([t]) == if t.completed then 1 else 0
  {
  }

  /** Toggling distributes over concatenation. */
  lemma ToggleConcat(a: seq<Task>, b: seq<Task>, id: string)
    ensures Toggle(a + b, id) == Toggle(a, id) + Toggle(b, id)
  {
    var l := Toggle(a + b, id);
    var r := Toggle(a, id) + Toggle(b, id);
    forall k | 0 <= k < |l| ensures l[k] == r[k] {
      if k < |a| {
        assert (a + b)[k] == a[k];
      } else {
        assert (a + b)[k] == b[k - |a|];
      }
    }
  }

  /** Toggling the task that carries `id` in a list with unique identifiers moves the completed
      count up by one when that task was open and down by one when it was completed. */
  lemma ToggleMovesCountAt(ts: seq<Task>, id: string, k: int)
    requires UniqueIds(ts)
    requires 0 <= k < |ts| && ts[k].id == id
    ensures CompletedCount(Toggle(ts, id)) == CompletedCount(ts) + (if ts[k].completed then -1 else 1)
  {
    var pre, t, post := ts[..k], ts[k], ts[k + 1..];
    assert ts == pre + [t] + post;
    assert !HasId(pre, id) by {
      forall m | 0 <= m < |pre| ensures pre[m].id != id {
        assert pre[m] == ts[m];
      }
    }
    assert !HasId(post, id) by {
      forall m | 0 <= m < |post| ensures post[m].id != id {
        assert post[m] == ts[k + 1 + m];
      }
    }
    ToggleAbsent(pre, id);
    ToggleAbsent(post, id);
    ToggleConcat(pre + [t], post, id);
    ToggleConcat(pre, [t], id);
    var flipped := t.(completed := !t.completed);
    assert Toggle([t], id) == [flipped];
    CompletedCountConcat(pre + [t], post);
    CompletedCountConcat(pre, [t]);
    CompletedCountConcat(pre + [flipped], post);
    CompletedCountConcat(pre, [flipped]);
    CompletedCountSingle(t);
    CompletedCountSingle(flipped);
  }

  /** Toggling leaves the completed count alone when the identifier is absent, and otherwise
      moves it by exactly one, in the direction the toggled task's flag goes. */
  lemma ToggleMovesCountByOne(ts: seq<Task>, id: string)
    requires UniqueIds(ts)
    ensures !HasId(ts, id) ==> CompletedCount(Toggle(ts, id)) == CompletedCount(ts)
    ensures forall k :: 0 <= k < |ts| && ts[k].id == id ==>
      CompletedCount(Toggle(ts, id)) == CompletedCount(ts) + (if ts[k].completed then -1 else 1)
  {
    if !HasId(ts, id) {
      ToggleAbsent(ts, id);
    }
    forall k | 0 <= k < |ts| && ts[k].id == id
      ensures CompletedCount(Toggle(ts, id)) == CompletedCount(ts) + (if ts[k].completed then -1 else 1)
    {
      ToggleMovesCountAt(ts, id, k);
    }
  }
}
