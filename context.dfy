/**
 * The context array of one log call and how `FileLogger::interpolate`
 * splits it in one pass into placeholder substitutions, structured entries
 * (nested arrays) and the stack traces of an exception's cause chain.
 */
module Context {
  import opened Wrappers

  /** One stack frame: the source file and the line in it. */
  datatype Frame = Frame(file: string, line: int)

  /** What `Exception::getTrace()` returns, reduced to each frame's file and line: the frames, innermost first. */
  type Trace = seq<Frame>

  /**
   * A thrown exception: the text its string conversion gives, its captured
   * trace, and the exception it wraps (`getPrevious()`), if any. Being an
   * inductive value, every cause chain is finite.
   */
  datatype Exception = Exception(text: string, trace: Trace, previous: Option<Exception>)

  /** A context value: a scalar (already in its string form), a nested array, or an exception. */
  datatype Value =
    | Scalar(text: string)
    | Collection(entries: seq<Entry>)
    | Error(exception: Exception)

  /** One key => value pair of a PHP array, in the array's order. */
  datatype Entry = Entry(key: string, value: Value)

  /** PHP arrays never hold a key twice. */
  predicate DistinctKeys(context: seq<Entry>)
  {
    forall i, j :: 0 <= i < j < |context| ==> context[i].key != context[j].key
  }

  // ---------------------------------------------------------------------
  // The cause chain
  // ---------------------------------------------------------------------

  /** The exception reached after following `previous` `i` times from `x`, if the chain is that long. */
  function Link(x: Exception, i: nat): Option<Exception>
    decreases i
  {
    if i == 0 then Some(x)
    else match x.previous
      case None => None
      case Some(p) => Link(p, i - 1)
  }

  /** The trace of every exception in the chain of `x`, outermost first. */
  function Causes(x: Exception): (r: seq<Trace>)
    ensures |r| >= 1 && r[0] == x.trace
  {
    match x.previous
    case None => [x.trace]
    case Some(p) => [x.trace] + Causes(p)
  }

  /** Each link of the chain is the `previous` of the link before it. */
  lemma {:induction false} LinkStep(x: Exception, i: nat)
    requires Link(x, i).Some?
    ensures Link(x, i + 1) == Link(x, i).value.previous
    decreases i
  {
    if i > 0 {
      LinkStep(x.previous.value, i - 1);
    }
  }

  /**
   * The walk over the chain yields exactly one trace per link, in chain
   * order, starting with `x` itself, and stops at the first exception that
   * wraps nothing.
   */
  lemma {:induction false} CausesWalkChain(x: Exception)
    ensures |Causes(x)| >= 1 && Causes(x)[0] == x.trace
    ensures forall i :: 0 <= i < |Causes(x)| ==> Link(x, i).Some? && Causes(x)[i] == Link(x, i).value.trace
    ensures Link(x, |Causes(x)|).None?
    decreases x
  {
    match x.previous
    case None =>
    case Some(p) =>
      CausesWalkChain(p);
      forall i | 0 <= i < |Causes(x)|
        ensures Link(x, i).Some? && Causes(x)[i] == Link(x, i).value.trace
      {
        if i > 0 {
          assert Causes(x)[i] == Causes(p)[i - 1];
        }
      }
  }

  /**
   * `do { $exception[] = $val->getTrace(); } while ($val = $val->getPrevious());`
   * appended to the traces gathered so far.
   */
  method CollectTraces(gathered: seq<Trace>, x: Exception) returns (traces: seq<Trace>)
    ensures traces == gathered + Causes(x)
  {
    traces := gathered;
    var link := x;
    while true
      invariant traces + Causes(link) == gathered + Causes(x)
      decreases link
    {
      traces := traces + [link.trace];
      if link.previous.None? {
        break;
      }
      link := link.previous.value;
    }
  }

  // ---------------------------------------------------------------------
  // Partitioning the context
  // ---------------------------------------------------------------------

  /** The `'{' . $key . '}'` marker a scalar context value replaces. */
  function Marker(key: string): (m: string)
    ensures |m| == |key| + 2 && m[0] == '{' && m[|m| - 1] == '}'
  {
    "{" + key + "}"
  }

  /** Which of the three outputs an entry goes to. */
  datatype Route = ToStructured | ToChain | ToPlaceholder

  /**
   * Nested arrays are structured data; an exception under the key
   * "exception" contributes its chain; everything else, including an
   * exception under any other key, becomes a placeholder substitution.
   */
  function RouteOf(e: Entry): (r: Route)
    ensures r == ToStructured <==> e.value.Collection?
    ensures r == ToChain <==> e.key == "exception" && e.value.Error?
  {
    if e.value.Collection? then ToStructured
    else if e.key == "exception" && e.value.Error? then ToChain
    else ToPlaceholder
  }

  /** The string a placeholder is replaced by. */
  function TextOf(v: Value): string
    requires !v.Collection?
  {
    match v
    case Scalar(s) => s
    case Error(x) => x.text
  }

  /** An item of the structured output: a nested array, or the list of traces of an exception chain. */
  datatype Item = Nested(value: Value) | Traces(traces: seq<Trace>)

  /** One key => item pair of the structured output, in output order. */
  datatype Member = Member(key: string, item: Item)

  /** The three arrays `interpolate` fills: `$replace`, `$array` and `$exception`. */
  datatype Parts = Parts(replace: map<string, string>, members: seq<Member>, traces: seq<Trace>)

  /** Routing one entry into the parts gathered so far. */
  function Step(p: Parts, e: Entry): (r: Parts)
    ensures p.members <= r.members && |r.members| <= |p.members| + 1
    ensures p.traces <= r.traces
    ensures p.replace.Keys <= r.replace.Keys
  {
    match RouteOf(e)
    case ToStructured => p.(members := p.members + [Member(e.key, Nested(e.value))])
    case ToChain => p.(traces := p.traces + Causes(e.value.exception))
    case ToPlaceholder => p.(replace := p.replace[Marker(e.key) := TextOf(e.value)])
  }

  /** The parts after routing every entry of `context`, in order. */
  function Split(context: seq<Entry>): (r: Parts)
    ensures |r.members| <= |context|
    decreases |context|
  {
    if context == [] then Parts(map[], [], [])
    else Step(Split(context[..|context| - 1]), context[|context| - 1])
  }

  /**
   * The `foreach ($context as $key => $val)` loop of `interpolate`, with the
   * exception chain walked in place.
   */
  method SplitContext(context: seq<Entry>) returns (replace: map<string, string>, members: seq<Member>, traces: seq<Trace>)
    ensures Parts(replace, members, traces) == Split(context)
  {
    replace, members, traces := map[], [], [];
    for i := 0 to |context|
      invariant Parts(replace, members, traces) == Split(context[..i])
    {
      assert context[..i + 1][..i] == context[..i];
      var key, val := context[i].key, context[i].value;
      if val.Collection? {
        members := members + [Member(key, Nested(val))];
      } else if key == "exception" && val.Error? {
        traces := CollectTraces(traces, val.exception);
      } else {
        replace := replace[Marker(key) := TextOf(val)];
      }
    }
    assert context[..|context|] == context;
  }

  /**
   * `if (!empty($exception)) { $array['exception'] = $exception; }`: the
   * traces go last, under "exception", and only when there are any.
   */
  function Structured(p: Parts): (r: seq<Member>)
    ensures |r| == |p.members| + (if p.traces == [] then 0 else 1)
    ensures r[..|p.members|] == p.members
    ensures p.traces != [] ==> r[|r| - 1] == Member("exception", Traces(p.traces))
  {
    if p.traces == [] then p.members
    else p.members + [Member("exception", Traces(p.traces))]
  }

  /** Gathering the parts of two consecutive stretches of the context. */
  function Join(p: Parts, q: Parts): Parts
  {
    Parts(p.replace + q.replace, p.members + q.members, p.traces + q.traces)
  }

  /**
   * The pass is a single left-to-right fold: the parts of `a + b` are those
   * of `a` followed by those of `b` (for placeholders, later entries win).
   * So entries keep their context order in every output.
   */
  lemma {:induction false} SplitConcat(a: seq<Entry>, b: seq<Entry>)
    ensures Split(a + b) == Join(Split(a), Split(b))
    decreases |b|
  {
    if b == [] {
      assert a + b == a;
    } else {
      var b' := b[..|b| - 1];
      var e := b[|b| - 1];
      assert (a + b)[..|a + b| - 1] == a + b';
      assert (a + b)[|a + b| - 1] == e;
      SplitConcat(a, b');
      StepJoin(Split(a), Split(b'), e);
    }
  }

  /** Routing an entry after two stretches is routing it after the second one. */
  lemma StepJoin(p: Parts, q: Parts, e: Entry)
    ensures Step(Join(p, q), e) == Join(p, Step(q, e))
  {
    match RouteOf(e)
    case ToStructured =>
      assert (p.members + q.members) + [Member(e.key, Nested(e.value))] == p.members + (q.members + [Member(e.key, Nested(e.value))]);
    case ToChain =>
      assert (p.traces + q.traces) + Causes(e.value.exception) == p.traces + (q.traces + Causes(e.value.exception));
    case ToPlaceholder =>
      assert (p.replace + q.replace)[Marker(e.key) := TextOf(e.value)] == p.replace + q.replace[Marker(e.key) := TextOf(e.value)];
  }

  /** Every nested array of the context is a structured member under its own key, and nothing else is. */
  lemma {:induction false} StructuredMembers(context: seq<Entry>)
    ensures forall i :: 0 <= i < |context| && RouteOf(context[i]) == ToStructured ==>
      Member(context[i].key, Nested(context[i].value)) in Split(context).members
    ensures forall m :: m in Split(context).members ==>
      exists i :: 0 <= i < |context| && RouteOf(context[i]) == ToStructured && m == Member(context[i].key, Nested(context[i].value))
    decreases |context|
  {
    if context != [] {
      var init := context[..|context| - 1];
      StructuredMembers(init);
      forall m | m in Split(context).members
        ensures exists i :: 0 <= i < |context| && RouteOf(context[i]) == ToStructured && m == Member(context[i].key, Nested(context[i].value))
      {
        if m in Split(init).members {
          var i :| 0 <= i < |init| && RouteOf(init[i]) == ToStructured && m == Member(init[i].key, Nested(init[i].value));
          assert context[i] == init[i];
        } else {
          assert m == Member(context[|context| - 1].key, Nested(context[|context| - 1].value));
        }
      }
      forall i | 0 <= i < |context| && RouteOf(context[i]) == ToStructured
        ensures Member(context[i].key, Nested(context[i].value)) in Split(context).members
      {
        if i < |context| - 1 {
          assert context[i] == init[i];
        }
      }
    }
  }

  /**
   * Every scalar entry, and every exception under a key other than
   * "exception", gives the substitution marker-of-key => its text; the
   * substitution table has no other keys.
   */
  lemma {:induction false} PlaceholderTable(context: seq<Entry>)
    requires DistinctKeys(context)
    ensures forall i :: 0 <= i < |context| && RouteOf(context[i]) == ToPlaceholder ==>
      Marker(context[i].key) in Split(context).replace &&
      Split(context).replace[Marker(context[i].key)] == TextOf(context[i].value)
    ensures forall k :: k in Split(context).replace ==>
      exists i :: 0 <= i < |context| && RouteOf(context[i]) == ToPlaceholder && k == Marker(context[i].key)
    decreases |context|
  {
    if context != [] {
      var init := context[..|context| - 1];
      var last := context[|context| - 1];
      PlaceholderTable(init);
      forall k | k in Split(context).replace
        ensures exists i :: 0 <= i < |context| && RouteOf(context[i]) == ToPlaceholder && k == Marker(context[i].key)
      {
        if k in Split(init).replace {
          var i :| 0 <= i < |init| && RouteOf(init[i]) == ToPlaceholder && k == Marker(init[i].key);
          assert context[i] == init[i];
        }
      }
      forall i | 0 <= i < |context| && RouteOf(context[i]) == ToPlaceholder
        ensures Marker(context[i].key) in Split(context).replace &&
          Split(context).replace[Marker(context[i].key)] == TextOf(context[i].value)
      {
        if i < |context| - 1 {
          assert context[i] == init[i];
          assert context[i].key != last.key;
          MarkerInjective(context[i].key, last.key);
        }
      }
    }
  }

  /** Distinct keys give distinct markers. */
  lemma MarkerInjective(a: string, b: string)
    requires a != b
    ensures Marker(a) != Marker(b)
  {
    assert Marker(a)[1..|a| + 1] == a;
    assert Marker(b)[1..|b| + 1] == b;
  }

  /**
   * The traces come from the one exception stored under "exception" (its
   * whole chain) and are empty when there is none.
   */
  lemma {:induction false} ChainTraces(context: seq<Entry>)
    requires DistinctKeys(context)
    ensures forall i :: 0 <= i < |context| && RouteOf(context[i]) == ToChain ==>
      Split(context).traces == Causes(context[i].value.exception)
    ensures (forall i :: 0 <= i < |context| ==> RouteOf(context[i]) != ToChain) ==>
      Split(context).traces == []
    decreases |context|
  {
    if context != [] {
      var init := context[..|context| - 1];
      assert DistinctKeys(init);
      ChainTraces(init);
      forall i | 0 <= i < |context| && RouteOf(context[i]) == ToChain
        ensures Split(context).traces == Causes(context[i].value.exception)
      {
        if i < |context| - 1 {
          assert context[i] == init[i];
          assert RouteOf(context[|context| - 1]) != ToChain;
        } else {
          assert forall j :: 0 <= j < |init| ==> init[j] == context[j] && RouteOf(init[j]) != ToChain;
        }
      }
      if forall i :: 0 <= i < |context| ==> RouteOf(context[i]) != ToChain {
        assert forall j :: 0 <= j < |init| ==> init[j] == context[j];
      }
    }
  }

  /**
   * The structured output is empty exactly when every entry of the context
   * became a placeholder substitution.
   */
  lemma StructuredEmpty(context: seq<Entry>)
    requires DistinctKeys(context)
    ensures Structured(Split(context)) == [] <==> forall i :: 0 <= i < |context| ==> RouteOf(context[i]) == ToPlaceholder
  {
    StructuredMembers(context);
    ChainTraces(context);
    var p := Split(context);
    if forall i :: 0 <= i < |context| ==> RouteOf(context[i]) == ToPlaceholder {
      if p.members != [] {
        assert p.members[0] in p.members;
      }
    } else {
      var i :| 0 <= i < |context| && RouteOf(context[i]) != ToPlaceholder;
      if RouteOf(context[i]) == ToChain {
        CausesWalkChain(context[i].value.exception);
      }
    }
  }

  /**
   * The context of the repository's "critical" test: a scalar and an
   * exception wrapping another give one placeholder and, under "exception",
   * the two traces, outermost first, whatever the two exceptions' string
   * conversions are.
   */
  lemma TwoLinkChain(value: string, outerText: string, outer: Trace, innerText: string, inner: Trace)
    ensures var context := [Entry("variable", Scalar(value)),
                            Entry("exception", Error(Exception(outerText, outer,
                                     Some(Exception(innerText, inner, None)))))];
            Structured(Split(context)) == [Member("exception", Traces([outer, inner]))] &&
            Split(context).replace == map[Marker("variable") := value]
  {
    var x := Exception(outerText, outer, Some(Exception(innerText, inner, None)));
    var context := [Entry("variable", Scalar(value)), Entry("exception", Error(x))];
    var first := [Entry("variable", Scalar(value))];
    assert context[..1] == first && first[..0] == [];
    assert "variable" != "exception";
    var p := Split(first);
    assert Split(first[..0]) == Parts(map[], [], []);
    assert p == Step(Parts(map[], [], []), first[0]);
    assert p == Parts(map[Marker("variable") := value], [], []);
    assert Causes(x) == [outer, inner];
    assert Split(context) == Step(p, context[1]);
    assert Split(context) == Parts(map[Marker("variable") := value], [], [outer, inner]);
  }

  /**
   * The context of the repository's "error" test: a nested array is kept
   * verbatim under its own key.
   */
  lemma NestedArrayKept(value: string, nested: seq<Entry>)
    ensures var context := [Entry("variable", Scalar(value)), Entry("other", Collection(nested))];
            Structured(Split(context)) == [Member("other", Nested(Collection(nested)))]
  {
    var context := [Entry("variable", Scalar(value)), Entry("other", Collection(nested))];
    var first := [Entry("variable", Scalar(value))];
    assert context[..1] == first && first[..0] == [];
    assert "variable" != "exception";
    var p := Split(first);
    assert Split(first[..0]) == Parts(map[], [], []);
    assert p == Step(Parts(map[], [], []), first[0]);
    assert p == Parts(map[Marker("variable") := value], [], []);
    assert Split(context) == Step(p, context[1]);
  }
}
