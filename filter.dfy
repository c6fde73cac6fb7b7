/** The Filter plan node: the visitor protocol of `accept` (enter and leave
    gating, in-place rewriting of the conditions, early exit for read-only
    visitors) and the copy of its condition list. */
module PlanFilter {
  import opened Types

  /** A condition expression; its structure is not part of the model. */
  datatype ConditionExpression = ConditionExpression(id: nat)

  /** The input plan node; its own traversal is not part of the model. */
  datatype PlanNode = PlanNode(id: nat)

  /** What a visitor observes, in order. */
  datatype Event =
    | VisitEnter
    | InputAccept(node: PlanNode)
    | RewriteCondition(condition: ConditionExpression)
    | VisitCondition(condition: ConditionExpression)
    | VisitLeave

  /** A plan visitor.  Whether it is an expression-rewrite visitor or an
      expression visitor is fixed, and so are its answers: to entering and
      leaving the filter, the answer of the input's traversal, the rewritten
      form of each condition and whether to go on after each condition. */
  class Visitor {
    const isRewriteVisitor: bool
    const isExpressionVisitor: bool
    const enterAnswer: bool
    const inputAnswer: bool
    const leaveAnswer: bool
    const rewriteTo: ConditionExpression -> ConditionExpression
    const proceed: ConditionExpression -> bool
    var trace: seq<Event>

    constructor(isRewriteVisitor: bool, isExpressionVisitor: bool,
                enterAnswer: bool, inputAnswer: bool, leaveAnswer: bool,
                rewriteTo: ConditionExpression -> ConditionExpression,
                proceed: ConditionExpression -> bool)
      ensures this.isRewriteVisitor == isRewriteVisitor && this.isExpressionVisitor == isExpressionVisitor
      ensures this.enterAnswer == enterAnswer && this.inputAnswer == inputAnswer && this.leaveAnswer == leaveAnswer
      ensures this.rewriteTo == rewriteTo && this.proceed == proceed
      ensures trace == []
    {
      this.isRewriteVisitor := isRewriteVisitor;
      this.isExpressionVisitor := isExpressionVisitor;
      this.enterAnswer := enterAnswer;
      this.inputAnswer := inputAnswer;
      this.leaveAnswer := leaveAnswer;
      this.rewriteTo := rewriteTo;
      this.proceed := proceed;
      trace := [];
    }

    method Enter() returns (b: bool)
      modifies this
      ensures b == enterAnswer && trace == old(trace) + [VisitEnter]
    {
      trace := trace + [VisitEnter];
      b := enterAnswer;
    }

    method Leave() returns (b: bool)
      modifies this
      ensures b == leaveAnswer && trace == old(trace) + [VisitLeave]
    {
      trace := trace + [VisitLeave];
      b := leaveAnswer;
    }

    /** The input node's `accept` with this visitor. */
    method AcceptInput(node: PlanNode) returns (b: bool)
      modifies this
      ensures b == inputAnswer && trace == old(trace) + [InputAccept(node)]
    {
      trace := trace + [InputAccept(node)];
      b := inputAnswer;
    }

    /** A condition's `accept` with this visitor as a rewrite visitor. */
    method Rewrite(c: ConditionExpression) returns (r: ConditionExpression)
      modifies this
      ensures r == rewriteTo(c) && trace == old(trace) + [RewriteCondition(c)]
    {
      trace := trace + [RewriteCondition(c)];
      r := rewriteTo(c);
    }

    /** A condition's `accept` with this visitor as an expression visitor. */
    method Visit(c: ConditionExpression) returns (b: bool)
      modifies this
      ensures b == proceed(c) && trace == old(trace) + [VisitCondition(c)]
    {
      trace := trace + [VisitCondition(c)];
      b := proceed(c);
    }
  }

  /** Every condition replaced by its rewritten form, in place. */
  function Rewritten(f: ConditionExpression -> ConditionExpression, cs: seq<ConditionExpression>): (r: seq<ConditionExpression>)
    ensures |r| == |cs|
    ensures forall k :: 0 <= k < |cs| ==> r[k] == f(cs[k])
  {
    if |cs| == 0 then [] else Rewritten(f, cs[..|cs| - 1]) + [f(cs[|cs| - 1])]
  }

  function RewriteEvents(cs: seq<ConditionExpression>): (es: seq<Event>)
    ensures |es| == |cs|
  {
    if |cs| == 0 then [] else RewriteEvents(cs[..|cs| - 1]) + [RewriteCondition(cs[|cs| - 1])]
  }

  function VisitEvents(cs: seq<ConditionExpression>): (es: seq<Event>)
    ensures |es| == |cs|
  {
    if |cs| == 0 then [] else VisitEvents(cs[..|cs| - 1]) + [VisitCondition(cs[|cs| - 1])]
  }

  /** The conditions a read-only visitor sees: all of them up to and
      including the first one after which it does not go on. */
  function VisitedUntilStop(proceed: ConditionExpression -> bool, cs: seq<ConditionExpression>): (vs: seq<ConditionExpression>)
    ensures |vs| <= |cs| && vs == cs[..|vs|]
  {
    if |cs| == 0 then []
    else if proceed(cs[0]) then [cs[0]] + VisitedUntilStop(proceed, cs[1..])
    else [cs[0]]
  }

  /** The visited conditions are the shortest non-empty prefix ending at a
      condition that stops the visit, or all conditions when none does. */
  lemma {:induction false} VisitedUntilStopExactly(proceed: ConditionExpression -> bool, cs: seq<ConditionExpression>)
    ensures var vs := VisitedUntilStop(proceed, cs);
      && (|cs| > 0 ==> |vs| > 0)
      && (forall i :: 0 <= i < |vs| - 1 ==> proceed(vs[i]))
      && (|vs| < |cs| ==> !proceed(vs[|vs| - 1]))
  {
    if |cs| > 0 && proceed(cs[0]) {
      VisitedUntilStopExactly(proceed, cs[1..]);
      var rest := VisitedUntilStop(proceed, cs[1..]);
      var vs := VisitedUntilStop(proceed, cs);
      assert vs == [cs[0]] + rest;
      forall i | 0 <= i < |vs| - 1
        ensures proceed(vs[i])
      {
        if i > 0 {
          assert vs[i] == rest[i - 1];
        }
      }
    }
  }

  /** When the first `i` conditions let the visit go on, the visited
      conditions are decided from position `i` on. */
  lemma {:induction false} VisitedUntilStopAt(proceed: ConditionExpression -> bool, cs: seq<ConditionExpression>, i: nat)
    requires i <= |cs|
    requires forall j :: 0 <= j < i ==> proceed(cs[j])
    ensures i == |cs| ==> VisitedUntilStop(proceed, cs) == cs
    ensures i < |cs| && !proceed(cs[i]) ==> VisitedUntilStop(proceed, cs) == cs[..i + 1]
    decreases i
  {
    if i > 0 {
      VisitedUntilStopAt(proceed, cs[1..], i - 1);
      assert cs == [cs[0]] + cs[1..];
      if i < |cs| {
        assert cs[..i + 1] == [cs[0]] + cs[1..][..i];
      }
    }
  }

  /** The events a condition pass produces for a visitor. */
  function ConditionEvents(isRewriteVisitor: bool, isExpressionVisitor: bool,
                           proceed: ConditionExpression -> bool, cs: seq<ConditionExpression>): seq<Event>
  {
    if isRewriteVisitor then RewriteEvents(cs)
    else if isExpressionVisitor then VisitEvents(VisitedUntilStop(proceed, cs))
    else []
  }

  /** Everything `accept` shows the visitor: enter, then (if entered) the
      input, then (if the input's traversal went on) the conditions, and
      leave in every case. */
  function AcceptTrace(isRewriteVisitor: bool, isExpressionVisitor: bool, enterAnswer: bool, inputAnswer: bool,
                       proceed: ConditionExpression -> bool, input: PlanNode, cs: seq<ConditionExpression>): seq<Event>
  {
    [VisitEnter]
    + (if enterAnswer then EnteredEvents(isRewriteVisitor, isExpressionVisitor, inputAnswer, proceed, input, cs) else [])
    + [VisitLeave]
  }

  /** The events after a successful enter: the input, then the conditions
      when the input's traversal went on. */
  function EnteredEvents(isRewriteVisitor: bool, isExpressionVisitor: bool, inputAnswer: bool,
                         proceed: ConditionExpression -> bool, input: PlanNode, cs: seq<ConditionExpression>): seq<Event>
  {
    [InputAccept(input)]
    + (if inputAnswer then ConditionEvents(isRewriteVisitor, isExpressionVisitor, proceed, cs) else [])
  }

  /** The gating rules of the protocol: leave is always the last event, the
      input is visited iff the visitor entered, and a condition is shown to
      the visitor only when it entered and the input's traversal went on. */
  lemma AcceptTraceGating(isRewriteVisitor: bool, isExpressionVisitor: bool, enterAnswer: bool, inputAnswer: bool,
                          proceed: ConditionExpression -> bool, input: PlanNode, cs: seq<ConditionExpression>)
    ensures var t := AcceptTrace(isRewriteVisitor, isExpressionVisitor, enterAnswer, inputAnswer, proceed, input, cs);
      && t[0] == VisitEnter && t[|t| - 1] == VisitLeave
      && (InputAccept(input) in t <==> enterAnswer)
      && (!enterAnswer ==> t == [VisitEnter, VisitLeave])
      && (!(enterAnswer && inputAnswer) ==> forall e :: e in t ==> !e.RewriteCondition? && !e.VisitCondition?)
  {
  }

  /** The Filter plan node: an input and a list of conditions. */
  class Filter {
    const input: PlanNode
    var conditions: array<ConditionExpression>

    constructor(input: PlanNode, conditions: array<ConditionExpression>)
      ensures this.input == input && this.conditions == conditions
    {
      this.input := input;
      this.conditions := conditions;
    }

    /** Runs the visitor over this node.  The result is the visitor's answer
        to leaving; a rewrite visitor that got past enter and the input
        replaces each condition in place by its rewritten form; a read-only
        visitor sees the conditions in order up to the first one after which
        it does not go on. */
    method Accept(v: Visitor) returns (b: bool)
      modifies v, conditions
      ensures b == v.leaveAnswer
      ensures v.trace == old(v.trace) + AcceptTrace(v.isRewriteVisitor, v.isExpressionVisitor, v.enterAnswer,
                                                    v.inputAnswer, v.proceed, input, old(conditions[..]))
      ensures conditions[..] == if v.enterAnswer && v.inputAnswer && v.isRewriteVisitor
                                then Rewritten(v.rewriteTo, old(conditions[..]))
                                else old(conditions[..])
    {
      ghost var t0, cs := v.trace, conditions[..];
      var entered := v.Enter();
      if entered {
        VisitInputAndConditions(v);
      }
      ghost var middle := if v.enterAnswer then EnteredEvents(v.isRewriteVisitor, v.isExpressionVisitor,
                                                                v.inputAnswer, v.proceed, input, cs) else [];
      assert v.trace == t0 + [VisitEnter] + middle;
      b := v.Leave();
    }

    /** The part of `accept` after entering: the input, then the conditions
        when the input's traversal went on. */
    method VisitInputAndConditions(v: Visitor)
      modifies v, conditions
      ensures v.trace == old(v.trace) + EnteredEvents(v.isRewriteVisitor, v.isExpressionVisitor,
                                                      v.inputAnswer, v.proceed, input, old(conditions[..]))
      ensures conditions[..] == if v.inputAnswer && v.isRewriteVisitor
                                then Rewritten(v.rewriteTo, old(conditions[..]))
                                else old(conditions[..])
    {
      ghost var cs := conditions[..];
      ghost var t0 := v.trace;
      var inputGoesOn := v.AcceptInput(input);
      ghost var events: seq<Event> := [];
      if inputGoesOn {
        if v.isRewriteVisitor {
          RewriteConditions(v);
        } else if v.isExpressionVisitor {
          VisitConditions(v);
        }
        events := ConditionEvents(v.isRewriteVisitor, v.isExpressionVisitor, v.proceed, cs);
      }
      assert v.trace == (t0 + [InputAccept(input)]) + events;
      AppendOne(t0, InputAccept(input), events);
    }

    /** The rewrite pass: each condition is replaced in place, in order. */
    method RewriteConditions(v: Visitor)
      modifies v, conditions
      ensures conditions[..] == Rewritten(v.rewriteTo, old(conditions[..]))
      ensures v.trace == old(v.trace) + RewriteEvents(old(conditions[..]))
    {
      ghost var cs := conditions[..];
      ghost var start := v.trace;
      for i := 0 to conditions.Length
        invariant forall k :: 0 <= k < i ==> conditions[k] == v.rewriteTo(cs[k])
        invariant forall k :: i <= k < conditions.Length ==> conditions[k] == cs[k]
        invariant v.trace == start + RewriteEvents(cs[..i])
      {
        var c := v.Rewrite(conditions[i]);
        conditions[i] := c;
        assert cs[..i + 1][..i] == cs[..i];
      }
      assert cs[..conditions.Length] == cs;
    }

    /** The read-only pass: conditions are visited in order until the
        visitor does not go on. */
    method VisitConditions(v: Visitor)
      modifies v
      ensures v.trace == old(v.trace) + VisitEvents(VisitedUntilStop(v.proceed, conditions[..]))
    {
      ghost var cs := conditions[..];
      ghost var start := v.trace;
      for i := 0 to conditions.Length
        invariant forall k :: 0 <= k < i ==> v.proceed(cs[k])
        invariant v.trace == start + VisitEvents(cs[..i])
      {
        var goOn := v.Visit(conditions[i]);
        assert cs[..i + 1][..i] == cs[..i];
        if !goOn {
          VisitedUntilStopAt(v.proceed, cs, i);
          return;
        }
      }
      VisitedUntilStopAt(v.proceed, cs, |cs|);
      assert cs[..|cs|] == cs;
    }

    /** Replaces the condition list by a copy of it, so that this node no
        longer shares its list with the node it was cloned from. */
    method DeepCopy()
      modifies this
      ensures fresh(conditions)
      ensures conditions[..] == old(conditions[..])
    {
      var copy := new ConditionExpression[conditions.Length](i requires 0 <= i < conditions.Length reads this, conditions => conditions[i]);
      conditions := copy;
    }

    /** A duplicate of this node: a shallow clone whose condition list is
        then deep-copied. */
    method Duplicate() returns (d: Filter)
      ensures fresh(d) && fresh(d.conditions)
      ensures d.input == input && d.conditions[..] == conditions[..]
    {
      d := new Filter(input, conditions);
      d.DeepCopy();
    }
  }

  /** After duplicating, rewriting the duplicate's conditions leaves the
      original's conditions as they were. */
  method RewriteDuplicate(f: Filter, v: Visitor) returns (d: Filter)
    modifies v
    ensures fresh(d) && d.conditions != f.conditions
    ensures f.conditions[..] == old(f.conditions[..])
    ensures v.enterAnswer && v.inputAnswer && v.isRewriteVisitor ==>
      d.conditions[..] == Rewritten(v.rewriteTo, f.conditions[..])
  {
    d := f.Duplicate();
    var _ := d.Accept(v);
  }
}
