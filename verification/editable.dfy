/** The click-to-edit text field (src/components/ui/editable-field.tsx) as an event-driven state
    machine. The field shows its `value` prop until clicked; while editing, it keeps a draft that
    typing changes, Enter and blur hand to the owner, and Escape throws away. */
module EditableField {
  import opened Optional

  /** The `value` prop, `isEditing`, and the draft `currentValue`. */
  datatype Field = Field(value: string, editing: bool, draft: string)

  /** What can happen to the field. Clicks reach only the span shown while not editing;
      typing, blur and keys reach only the input shown while editing. `ValueProp` is the owner
      re-rendering the field with a (possibly new) value. */
  datatype Event = Click | Type(text: string) | Blur | KeyDown(key: string) | ValueProp(v: string)

  /** The field after an event, and the value handed to `onChange`, if any. */
  datatype Step = Step(field: Field, committed: Option<string>)

  /** A freshly mounted field: not editing, draft equal to the value. */
  function Mount(value: string): (f: Field)
    ensures !f.editing && f.draft == f.value == value
  {
    Field(value, false, value)
  }

  /** One event. */
  function Next(f: Field, e: Event): (s: Step)
    ensures s.committed.Some? <==> f.editing && (e == Blur || e == KeyDown("Enter"))
    ensures s.committed.Some? ==> s.committed.value == f.draft && !s.field.editing
    ensures s.field.value == if e.ValueProp? then e.v else f.value
    ensures s.field.editing != f.editing ==> e == Click || e == Blur || e == KeyDown("Enter") || e == KeyDown("Escape")
    // clicking the shown value opens the editor on the current draft
    ensures e == Click && !f.editing ==> s == Step(f.(editing := true), None)
    // typing while editing replaces the draft and nothing else
    ensures e.Type? && f.editing ==> s == Step(f.(draft := e.text), None)
    // committing leaves editing and changes nothing else
    ensures s.committed.Some? ==> s.field == f.(editing := false)
    // Escape while editing leaves editing and puts the value back into the draft
    ensures e == KeyDown("Escape") && f.editing ==> s == Step(f.(editing := false, draft := f.value), None)
    // a new value prop replaces both the value and the draft; the same value changes nothing
    ensures e.ValueProp? ==> s == Step(if e.v == f.value then f else Field(e.v, f.editing, e.v), None)
    // every other event (one reaching an element not shown, or another key) changes nothing
    ensures !f.editing && !e.Click? && !e.ValueProp? ==> s == Step(f, None)
    ensures f.editing && (e.Click? || (e.KeyDown? && e.key != "Enter" && e.key != "Escape")) ==> s == Step(f, None)
  {
    match e
    case ValueProp(v) =>
      // the effect that copies the prop into the draft runs only when the prop changes
      if v == f.value then Step(f, None) else Step(Field(v, f.editing, v), None)
    case Click =>
      if f.editing then Step(f, None) else Step(f.(editing := true), None)
    case Type(t) =>
      if f.editing then Step(f.(draft := t), None) else Step(f, None)
    case Blur =>
      if f.editing then Step(f.(editing := false), Some(f.draft)) else Step(f, None)
    case KeyDown(k) =>
      if !f.editing then Step(f, None)
      else if k == "Enter" then Step(f.(editing := false), Some(f.draft))
      else if k == "Escape" then Step(f.(editing := false, draft := f.value), None)
      else Step(f, None)
  }

  /** The state after a sequence of events and every value handed to `onChange`, in order. */
  datatype Trace = Trace(field: Field, commits: seq<string>)

  function Run(f: Field, es: seq<Event>): (t: Trace)
    // at most one value is handed over per event
    ensures |t.commits| <= |es|
    decreases |es|
  {
    if es == [] then Trace(f, [])
    else
      var s := Next(f, es[0]);
      var rest := Run(s.field, es[1..]);
      Trace(rest.field, Emitted(s) + rest.commits)
  }

  /** Nothing is handed to the owner unless some event is a blur or an Enter key. */
  lemma {:induction false} CommitsNeedBlurOrEnter(f: Field, es: seq<Event>)
    requires forall k :: 0 <= k < |es| ==> es[k] != Blur && es[k] != KeyDown("Enter")
    ensures Run(f, es).commits == []
    decreases |es|
  {
    if es != [] {
      assert forall k :: 1 <= k < |es| ==> es[1..][k - 1] == es[k];
      CommitsNeedBlurOrEnter(Next(f, es[0]).field, es[1..]);
    }
  }

  /** The shown value changes only through the value prop: the field's own events never
      alter it. */
  lemma {:induction false} ValueNeedsValueProp(f: Field, es: seq<Event>)
    requires forall k :: 0 <= k < |es| ==> !es[k].ValueProp?
    ensures Run(f, es).field.value == f.value
    decreases |es|
  {
    if es != [] {
      assert forall k :: 1 <= k < |es| ==> es[1..][k - 1] == es[k];
      ValueNeedsValueProp(Next(f, es[0]).field, es[1..]);
    }
  }

  /** Typing each of `ts` in turn. */
  function Typing(ts: seq<string>): (es: seq<Event>)
    ensures |es| == |ts| && forall k :: 0 <= k < |ts| ==> es[k] == Type(ts[k])
  {
    if ts == [] then [] else [Type(ts[0])] + Typing(ts[1..])
  }

  /** The value an event's step hands to `onChange`, as a list of zero or one. */
  function Emitted(s: Step): (out: seq<string>)
    ensures |out| <= 1 && (out == [] <==> s.committed.None?)
  {
    match s.committed case Some(c) => [c] case None => []
  }

  /** A non-empty run is its first step followed by the run of the rest. */
  lemma RunCons(f: Field, es: seq<Event>)
    requires es != []
    ensures Run(f, es).field == Run(Next(f, es[0]).field, es[1..]).field
    ensures Run(f, es).commits == Emitted(Next(f, es[0])) + Run(Next(f, es[0]).field, es[1..]).commits
  {
  }

  /** Running two event sequences one after the other: the field ends where running the
      second from the first's end leaves it, and the values handed over are the first's followed
      by the second's. */
  lemma {:induction false} RunConcat(f: Field, a: seq<Event>, b: seq<Event>)
    ensures Run(f, a + b).field == Run(Run(f, a).field, b).field
    ensures Run(f, a + b).commits == Run(f, a).commits + Run(Run(f, a).field, b).commits
    decreases |a|
  {
    if a == [] {
      assert a + b == b;
    } else {
      var s := Next(f, a[0]);
      var first := Emitted(s);
      var rest := Run(s.field, a[1..]);
      var later := Run(rest.field, b);
      assert Run(f, a) == Trace(rest.field, first + rest.commits) by {
        RunCons(f, a);
      }
      assert Run(f, a + b) == Trace(Run(s.field, a[1..] + b).field, first + Run(s.field, a[1..] + b).commits) by {
        ConcatSplit(a, b);
        RunCons(f, a + b);
      }
      assert Run(s.field, a[1..] + b) == Trace(later.field, rest.commits + later.commits) by {
        RunConcat(s.field, a[1..], b);
      }
      ConcatAssoc(first, rest.commits, later.commits);
    }
  }

  /** The head and tail of a concatenation whose first part is not empty. */
  lemma ConcatSplit<T>(a: seq<T>, b: seq<T>)
    requires a != []
    ensures (a + b)[0] == a[0] && (a + b)[1..] == a[1..] + b
  {
  }

  lemma ConcatAssoc<T>(x: seq<T>, y: seq<T>, z: seq<T>)
    ensures x + (y + z) == (x + y) + z
  {
  }

  /** Typing while editing changes only the draft, to the last text typed, and commits nothing. */
  lemma {:induction false} TypingOnlyChangesDraft(f: Field, ts: seq<string>)
    requires f.editing
    ensures Run(f, Typing(ts)).commits == []
    ensures Run(f, Typing(ts)).field == if ts == [] then f else f.(draft := ts[|ts| - 1])
    decreases |ts|
  {
    if ts != [] {
      var es := Typing(ts);
      assert es[1..] == Typing(ts[1..]);
      TypingOnlyChangesDraft(f.(draft := ts[0]), ts[1..]);
    }
  }

  /** Clicking and then typing opens the editor with the last text typed as its draft (the old
      draft if nothing was typed), and commits nothing. */
  lemma {:induction false} ClickThenType(f: Field, ts: seq<string>)
    requires !f.editing
    ensures Run(f, [Click] + Typing(ts))
         == Trace(f.(editing := true, draft := if ts == [] then f.draft else ts[|ts| - 1]), [])
  {
    var g := f.(editing := true);
    assert Run(f, [Click]) == Trace(g, []) by {
      RunSingle(f, Click);
    }
    RunConcat(f, [Click], Typing(ts));
    TypingOnlyChangesDraft(g, ts);
  }

  /** Clicking, typing anything, then pressing Escape hands nothing to the owner and leaves the
      field as it was before the click except that the draft is the value again. When the draft
      already showed the value, that is exactly the field before the click; it need not, since
      the value prop is copied into the draft only when it changes. */
  lemma {:induction false} EscapeDiscardsEdit(f: Field, ts: seq<string>)
    requires !f.editing
    ensures Run(f, [Click] + Typing(ts) + [KeyDown("Escape")]) == Trace(f.(draft := f.value), [])
    ensures f.draft == f.value ==> Run(f, [Click] + Typing(ts) + [KeyDown("Escape")]) == Trace(f, [])
  {
    var prefix := [Click] + Typing(ts);
    ClickThenType(f, ts);
    var h := Run(f, prefix).field;
    RunSingle(h, KeyDown("Escape"));
    RunConcat(f, prefix, [KeyDown("Escape")]);
  }

  /** A draft can differ from the value outside editing: committing "07" to an owner that
      stores `Number("07")` hands back the same value "7", so the prop does not change and the
      draft keeps "07". */
  lemma StaleDraftReachable()
    ensures Run(Mount("7"), [Click, Type("07"), Blur, ValueProp("7")]).field == Field("7", false, "07")
  {
    var f := Mount("7");
    RunConcat(f, [Click] + Typing(["07"]), [Blur]);
    RunConcat(f, [Click] + Typing(["07"]) + [Blur], [ValueProp("7")]);
  }

  /** Clicking, typing, then pressing Enter or leaving the input hands the owner exactly the
      last text typed (the old draft if nothing was typed), once, and leaves editing mode. */
  lemma {:induction false} CommitDeliversLastTyped(f: Field, ts: seq<string>, finish: Event)
    requires !f.editing
    requires finish == KeyDown("Enter") || finish == Blur
    ensures
      var t := Run(f, [Click] + Typing(ts) + [finish]);
      && t.commits == [if ts == [] then f.draft else ts[|ts| - 1]]
      && !t.field.editing && t.field.value == f.value
  {
    var prefix := [Click] + Typing(ts);
    ClickThenType(f, ts);
    var h := Run(f, prefix).field;
    RunSingle(h, finish);
    RunConcat(f, prefix, [finish]);
  }

  /** A run of one event is that event's step. */
  lemma RunSingle(f: Field, e: Event)
    ensures Run(f, [e]).field == Next(f, e).field
    ensures Run(f, [e]).commits == if Next(f, e).committed.Some? then [Next(f, e).committed.value] else []
  {
  }

  /** Keys other than Enter and Escape leave the field as it is and commit nothing. */
  lemma OtherKeysInert(f: Field, k: string)
    requires k != "Enter" && k != "Escape"
    ensures Next(f, KeyDown(k)) == Step(f, None)
  {
  }
}
