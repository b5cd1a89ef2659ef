/**
 Tool calls put together from streamed fragments: providers split the fields of a call and
 interleave the calls of one reply, and the index is the only join key.
 */
module ToolCalls {

  import opened Ascending
  import opened Texts
  import opened Wrappers

  /** What is known of a call so far. */
  datatype Part = Part(id: string, name: string, arguments: string, hasArguments: bool)

  const EMPTY := Part("", "", "", false)

  /** A fragment of a call: a block start replaces what was there, anything else adds to it. */
  datatype Fragment =
    | Start(index: int, id: string, name: string, input: Option<string>)
    | More(index: int, id: string, name: string, arguments: Option<string>)

  function Add(p: Part, f: Fragment): Part {
    match f
    case Start(_, id, name, input) =>
      Part(id, name, if input.Some? then input.value else "", input.Some?)
    case More(_, id, name, arguments) =>
      Part(if id != "" then id else p.id, p.name + name,
           if arguments.Some? then p.arguments + arguments.value else p.arguments, p.hasArguments || arguments.Some?)
  }

  /** One step of the `calls` dictionary. */
  function Absorb(calls: map<int, Part>, f: Fragment): map<int, Part> {
    calls[f.index := Add(if f.index in calls then calls[f.index] else EMPTY, f)]
  }

  function AbsorbAll(fragments: seq<Fragment>): map<int, Part> {
    if fragments == [] then map[]
    else Absorb(AbsorbAll(fragments[..|fragments| - 1]), fragments[|fragments| - 1])
  }

  // ------------------------------------------------------------ one call at a time

  /** The fragments of one index, in the order they came. */
  function Of(fragments: seq<Fragment>, index: int): seq<Fragment> {
    if fragments == [] then []
    else
      var front, last := Of(fragments[..|fragments| - 1], index), fragments[|fragments| - 1];
      if last.index == index then front + [last] else front
  }

  function Build(fragments: seq<Fragment>): Part {
    if fragments == [] then EMPTY
    else Add(Build(fragments[..|fragments| - 1]), fragments[|fragments| - 1])
  }

  /** The call at an index is built from the fragments of that index alone. */
  lemma {:induction false} CallIsItsFragments(fragments: seq<Fragment>, index: int)
    ensures index in AbsorbAll(fragments) <==> Of(fragments, index) != []
    ensures index in AbsorbAll(fragments) ==> AbsorbAll(fragments)[index] == Build(Of(fragments, index))
  {
    if fragments != [] {
      var n := |fragments| - 1;
      CallIsItsFragments(fragments[..n], index);
      var front := Of(fragments[..n], index);
      assert (front + [fragments[n]])[..|front|] == front;
    }
  }

  /** The two streams deliver the fragments of every call in the same order. */
  ghost predicate SameCalls(p: seq<Fragment>, q: seq<Fragment>) {
    forall index :: Of(p, index) == Of(q, index)
  }

  /** However the calls are interleaved, the dictionary is the same. */
  lemma InterleavingDoesNotMatter(p: seq<Fragment>, q: seq<Fragment>)
    requires SameCalls(p, q)
    ensures AbsorbAll(p) == AbsorbAll(q)
  {
    forall index | index in AbsorbAll(p) || index in AbsorbAll(q)
      ensures index in AbsorbAll(p) && index in AbsorbAll(q) && AbsorbAll(p)[index] == AbsorbAll(q)[index]
    {
      CallIsItsFragments(p, index);
      CallIsItsFragments(q, index);
    }
  }

  lemma {:induction false} OfConcat(p: seq<Fragment>, q: seq<Fragment>, index: int)
    ensures Of(p + q, index) == Of(p, index) + Of(q, index)
  {
    if q == [] {
      assert p + q == p;
    } else {
      var n := |q| - 1;
      assert (p + q)[..|p| + n] == p + q[..n];
      OfConcat(p, q[..n], index);
    }
  }

  /** In particular two neighbouring fragments of different calls may swap. */
  lemma NeighboursSwap(p: seq<Fragment>, f: Fragment, g: Fragment, q: seq<Fragment>)
    requires f.index != g.index
    ensures AbsorbAll(p + [f, g] + q) == AbsorbAll(p + [g, f] + q)
  {
    forall index ensures Of(p + [f, g] + q, index) == Of(p + [g, f] + q, index) {
      OfConcat(p + [f, g], q, index);
      OfConcat(p + [g, f], q, index);
      OfConcat(p, [f, g], index);
      OfConcat(p, [g, f], index);
      assert [f, g] == [f] + [g] && [g, f] == [g] + [f];
      OfConcat([f], [g], index);
      OfConcat([g], [f], index);
    }
    InterleavingDoesNotMatter(p + [f, g] + q, p + [g, f] + q);
  }

  // ------------------------------------------------------------ what a call consists of

  function Names(fragments: seq<Fragment>): string {
    if fragments == [] then "" else Names(fragments[..|fragments| - 1]) + fragments[|fragments| - 1].name
  }

  function Given(f: Fragment): Option<string> {
    if f.Start? then f.input else f.arguments
  }

  function Arguments(fragments: seq<Fragment>): string {
    if fragments == [] then ""
    else
      var given := Given(fragments[|fragments| - 1]);
      Arguments(fragments[..|fragments| - 1]) + if given.Some? then given.value else ""
  }

  /** The last identifier that is not empty. */
  function LastId(fragments: seq<Fragment>): string {
    if fragments == [] then ""
    else if fragments[|fragments| - 1].id != "" then fragments[|fragments| - 1].id
    else LastId(fragments[..|fragments| - 1])
  }

  ghost predicate NoStart(fragments: seq<Fragment>) {
    forall i | 0 <= i < |fragments| :: fragments[i].More?
  }

  /** Without block starts: name and arguments are concatenated, the last identifier wins. */
  lemma {:induction false} BuiltFromMore(fragments: seq<Fragment>)
    requires NoStart(fragments)
    ensures Build(fragments) == Part(LastId(fragments), Names(fragments), Arguments(fragments),
                                     exists i :: 0 <= i < |fragments| && Given(fragments[i]).Some?)
  {
    if fragments != [] {
      var n := |fragments| - 1;
      BuiltFromMore(fragments[..n]);
      assert (exists i :: 0 <= i < n && Given(fragments[..n][i]).Some?) <==>
          (exists i :: 0 <= i < n && Given(fragments[i]).Some?);
    }
  }

  /** A block start forgets everything before it. */
  lemma {:induction false} StartForgets(before: seq<Fragment>, start: Fragment, rest: seq<Fragment>)
    requires start.Start?
    ensures Build(before + [start] + rest) == Build([start] + rest)
  {
    if rest == [] {
      assert (before + [start])[..|before|] == before && before + [start] + [] == before + [start];
      assert [start][..0] == [] && [start] + [] == [start];
    } else {
      var n := |rest| - 1;
      StartForgets(before, start, rest[..n]);
      assert (before + [start] + rest)[..|before| + 1 + n] == before + [start] + rest[..n];
      assert ([start] + rest)[..1 + n] == [start] + rest[..n];
    }
  }

  // ------------------------------------------------------------ the reply

  /** A call without an identifier is numbered by its index. */
  datatype Id = Own(id: string) | Numbered(index: int)

  datatype ToolCall = ToolCall(id: Id, name: string, arguments: string)

  function CallOf(index: int, p: Part): ToolCall {
    ToolCall(if p.id != "" then Own(p.id) else Numbered(index), p.name, if p.hasArguments then p.arguments else "{}")
  }

  function ListCalls(calls: map<int, Part>, indices: seq<int>): (r: seq<ToolCall>)
    requires forall i | 0 <= i < |indices| :: indices[i] in calls
    ensures |r| == |indices| && forall i | 0 <= i < |r| :: r[i] == CallOf(indices[i], calls[indices[i]])
  {
    seq(|indices|, i requires 0 <= i < |indices| => CallOf(indices[i], calls[indices[i]]))
  }

  /** The calls ordered by index. */
  function Sorted(calls: map<int, Part>): seq<ToolCall> {
    var indices := InOrder(calls.Keys);
    assert forall i | 0 <= i < |indices| :: indices[i] in indices;
    ListCalls(calls, indices)
  }

  /** Why arguments do not decode to an object. */
  datatype Problem = InvalidJson | NonObject

  datatype Event =
    | TextShown(text: string)
    | Completed(text: string, calls: seq<ToolCall>, reasoning: string)
    | BadArguments(id: Id, name: string, problem: Problem)

  /** Decoding goes by index and stops at the first call whose arguments are no object. */
  function Finish(calls: seq<ToolCall>, decode: string -> Option<Problem>, text: string, reasoning: string): Event {
    FinishFrom(calls, 0, decode, text, reasoning)
  }

  function FinishFrom(calls: seq<ToolCall>, i: nat, decode: string -> Option<Problem>, text: string,
      reasoning: string): Event
    requires i <= |calls|
    decreases |calls| - i
  {
    if i == |calls| then Completed(Strip(text), calls, reasoning)
    else if decode(calls[i].arguments).Some?
        then BadArguments(calls[i].id, calls[i].name, decode(calls[i].arguments).value)
    else FinishFrom(calls, i + 1, decode, text, reasoning)
  }

  /** The first call whose arguments do not decode is the one that is named, with its own problem. */
  lemma {:induction false} BadArgumentsIff(calls: seq<ToolCall>, i: nat, decode: string -> Option<Problem>,
      text: string, reasoning: string, id: Id, name: string, problem: Problem)
    requires i <= |calls|
    ensures FinishFrom(calls, i, decode, text, reasoning) == BadArguments(id, name, problem) <==>
              exists k :: i <= k < |calls| && calls[k].id == id && calls[k].name == name
                          && decode(calls[k].arguments) == Some(problem) && AllDecode(calls, i, k, decode)
    decreases |calls| - i
  {
    if i < |calls| {
      BadArgumentsIff(calls, i + 1, decode, text, reasoning, id, name, problem);
      if decode(calls[i].arguments).Some? {
        assert AllDecode(calls, i, i, decode);
        assert forall k | i < k < |calls| :: !AllDecode(calls, i, k, decode);
      } else {
        assert forall k | i < k <= |calls| :: AllDecode(calls, i, k, decode) <==> AllDecode(calls, i + 1, k, decode);
      }
    }
  }

  /** The arguments of the calls from the i-th up to the k-th decode. */
  ghost predicate AllDecode(calls: seq<ToolCall>, i: nat, k: nat, decode: string -> Option<Problem>)
    requires k <= |calls|
  {
    forall j | i <= j < k :: decode(calls[j].arguments).None?
  }

  /** A reply completes exactly when the arguments of every call decode. */
  lemma {:induction false} CompletesIff(calls: seq<ToolCall>, i: nat, decode: string -> Option<Problem>, text: string,
      reasoning: string)
    requires i <= |calls|
    ensures FinishFrom(calls, i, decode, text, reasoning) == Completed(Strip(text), calls, reasoning)
            <==> forall k | i <= k < |calls| :: decode(calls[k].arguments).None?
    decreases |calls| - i
  {
    if i < |calls| { CompletesIff(calls, i + 1, decode, text, reasoning); }
  }

  function Join(texts: seq<string>): string {
    if texts == [] then "" else Join(texts[..|texts| - 1]) + texts[|texts| - 1]
  }

  function Shown(texts: seq<string>): (events: seq<Event>)
    ensures |events| == |texts| && forall i | 0 <= i < |texts| :: events[i] == TextShown(texts[i])
  {
    seq(|texts|, i requires 0 <= i < |texts| => TextShown(texts[i]))
  }

  /** All that a provider stream yields. */
  function Reply(fragments: seq<Fragment>, texts: seq<string>, decode: string -> Option<Problem>,
      reasoning: string): seq<Event> {
    Shown(texts) + [Finish(Sorted(AbsorbAll(fragments)), decode, Join(texts), reasoning)]
  }

  // ------------------------------------------------------------ OpenAI-compatible streams

  datatype OpenAiTool = OpenAiTool(index: int, id: string, name: string, arguments: Option<string>)

  datatype OpenAiLine = Finished | Delta(content: string, reasoning: string, tools: seq<OpenAiTool>)

  function FromTools(tools: seq<OpenAiTool>): (r: seq<Fragment>)
    ensures |r| == |tools|
    ensures forall i | 0 <= i < |r| :: r[i] == More(tools[i].index, tools[i].id, tools[i].name, tools[i].arguments)
  {
    seq(|tools|, i requires 0 <= i < |tools| => More(tools[i].index, tools[i].id, tools[i].name, tools[i].arguments))
  }

  function OpenAiFragments(lines: seq<OpenAiLine>): seq<Fragment> {
    if lines == [] || lines[0].Finished? then [] else FromTools(lines[0].tools) + OpenAiFragments(lines[1..])
  }

  function ContentOf(line: OpenAiLine): (r: seq<string>)
    ensures |r| <= 1
  {
    if line.Delta? && line.content != "" then [line.content] else []
  }

  function OpenAiTexts(lines: seq<OpenAiLine>): seq<string> {
    if lines == [] || lines[0].Finished? then [] else ContentOf(lines[0]) + OpenAiTexts(lines[1..])
  }

  function OpenAiReasoning(lines: seq<OpenAiLine>): string {
    if lines == [] || lines[0].Finished? then "" else lines[0].reasoning + OpenAiReasoning(lines[1..])
  }

  /** The text of all lines up to the end mark. */
  function ContentsOf(lines: seq<OpenAiLine>): string {
    if lines == [] || lines[0].Finished? then "" else lines[0].content + ContentsOf(lines[1..])
  }

  lemma {:induction false} JoinAll(texts: seq<string>, more: seq<string>)
    ensures Join(texts + more) == Join(texts) + Join(more)
  {
    if more == [] {
      assert texts + more == texts;
    } else {
      var n := |more| - 1;
      assert (texts + more)[..|texts| + n] == texts + more[..n];
      JoinAll(texts, more[..n]);
    }
  }

  /** What is shown of an OpenAI-compatible stream is all its text, and no piece of it is empty. */
  lemma {:induction false} OpenAiTextsAre(lines: seq<OpenAiLine>)
    ensures Join(OpenAiTexts(lines)) == ContentsOf(lines)
    ensures forall t | t in OpenAiTexts(lines) :: t != ""
  {
    if lines != [] && lines[0].Delta? {
      OpenAiTextsAre(lines[1..]);
      JoinAll(ContentOf(lines[0]), OpenAiTexts(lines[1..]));
      assert Join(ContentOf(lines[0])) == lines[0].content by { JoinConcat([], lines[0].content); }
    }
  }

  lemma {:induction false} AbsorbConcat(p: seq<Fragment>, f: Fragment)
    ensures AbsorbAll(p + [f]) == Absorb(AbsorbAll(p), f)
  {
    assert (p + [f])[..|p|] == p;
  }

  lemma JoinConcat(texts: seq<string>, t: string)
    ensures Join(texts + [t]) == Join(texts) + t
  {
    assert (texts + [t])[..|texts|] == texts;
  }

  lemma Regroup<T>(done: seq<T>, next: seq<T>, rest: seq<T>, whole: seq<T>)
    requires done + (next + rest) == whole
    ensures done + next + rest == whole
  {
    assert done + next + rest == done + (next + rest);
  }

  /** Yields the text of a line, if it has one. */
  method Show(next: seq<string>, text: string, events: seq<Event>, ghost texts: seq<string>)
      returns (text': string, events': seq<Event>)
    requires |next| <= 1 && text == Join(texts) && events == Shown(texts)
    ensures text' == Join(texts + next) && events' == Shown(texts + next)
  {
    text', events' := text, events;
    if next == [] {
      assert texts + next == texts;
    } else {
      assert next == [next[0]];
      JoinConcat(texts, next[0]);
      text', events' := text + next[0], events + [TextShown(next[0])];
    }
  }

  method AbsorbTools(calls: map<int, Part>, tools: seq<OpenAiTool>, ghost before: seq<Fragment>)
      returns (r: map<int, Part>)
    requires calls == AbsorbAll(before)
    ensures r == AbsorbAll(before + FromTools(tools))
  {
    hide AbsorbAll;
    r := calls;
    assert before + FromTools(tools)[..0] == before;
    for i := 0 to |tools|
      invariant r == AbsorbAll(before + FromTools(tools)[..i])
    {
      var t := tools[i];
      AbsorbConcat(before + FromTools(tools)[..i], FromTools(tools)[i]);
      assert before + FromTools(tools)[..i] + [FromTools(tools)[i]] == before + FromTools(tools)[..i + 1];
      var current := if t.index in r then r[t.index] else EMPTY;
      current := current.(id := if t.id != "" then t.id else current.id, name := current.name + t.name);
      if t.arguments.Some? {
        current := current.(arguments := current.arguments + t.arguments.value, hasArguments := true);
      }
      r := r[t.index := current];
    }
    assert FromTools(tools)[..|tools|] == FromTools(tools);
  }

  /** `_openai_stream` */
  method OpenAiStream(lines: seq<OpenAiLine>, decode: string -> Option<Problem>) returns (events: seq<Event>)
    ensures events == Reply(OpenAiFragments(lines), OpenAiTexts(lines), decode, OpenAiReasoning(lines))
  {
    assert AbsorbAll([]) == map[] && Join([]) == "";
    hide AbsorbAll, Join, Sorted, Finish, ContentOf, TextOf, FragmentOf;
    var calls: map<int, Part> := map[];
    var text, reasoning := "", "";
    ghost var fragments: seq<Fragment> := [];
    ghost var texts: seq<string> := [];
    events := [];
    var i := 0;
    while i < |lines| && lines[i].Delta?
      invariant i <= |lines|
      invariant calls == AbsorbAll(fragments) && fragments + OpenAiFragments(lines[i..]) == OpenAiFragments(lines)
      invariant text == Join(texts) && events == Shown(texts) && texts + OpenAiTexts(lines[i..]) == OpenAiTexts(lines)
      invariant reasoning + OpenAiReasoning(lines[i..]) == OpenAiReasoning(lines)
    {
      var line := lines[i];
      assert lines[i..][1..] == lines[i + 1..];
      Regroup(texts, ContentOf(line), OpenAiTexts(lines[i + 1..]), OpenAiTexts(lines));
      Regroup(fragments, FromTools(line.tools), OpenAiFragments(lines[i + 1..]), OpenAiFragments(lines));
      Regroup(reasoning, line.reasoning, OpenAiReasoning(lines[i + 1..]), OpenAiReasoning(lines));
      text, events := Show(ContentOf(line), text, events, texts);
      texts := texts + ContentOf(line);
      reasoning := reasoning + line.reasoning;
      calls := AbsorbTools(calls, line.tools, fragments);
      fragments := fragments + FromTools(line.tools);
      i := i + 1;
    }
    assert OpenAiFragments(lines[i..]) == [] && OpenAiTexts(lines[i..]) == [] && OpenAiReasoning(lines[i..]) == "";
    assert fragments == OpenAiFragments(lines) && texts == OpenAiTexts(lines) && reasoning == OpenAiReasoning(lines);
    events := events + [Finish(Sorted(calls), decode, text, reasoning)];
  }

  // ------------------------------------------------------------ Claude streams

  datatype ClaudeLine =
    | BlockStart(index: int, id: string, name: string, input: Option<string>)
    | TextDelta(text: string)
    | JsonDelta(index: int, partial: Option<string>)
    | Other
    | MessageStop

  function FragmentOf(line: ClaudeLine): seq<Fragment> {
    match line
    case BlockStart(index, id, name, input) => [Start(index, id, name, input)]
    case JsonDelta(index, partial) => [More(index, "", "", partial)]
    case _ => []
  }

  function TextOf(line: ClaudeLine): (r: seq<string>)
    ensures |r| <= 1
  {
    if line.TextDelta? then [line.text] else []
  }

  /** The text of all text deltas up to the end mark. */
  function ClaudeContents(lines: seq<ClaudeLine>): string {
    if lines == [] || lines[0].MessageStop? then ""
    else (if lines[0].TextDelta? then lines[0].text else "") + ClaudeContents(lines[1..])
  }

  /** What is shown of a Claude stream is the text of its text deltas. */
  lemma {:induction false} ClaudeTextsAre(lines: seq<ClaudeLine>)
    ensures Join(ClaudeTexts(lines)) == ClaudeContents(lines)
  {
    if lines != [] && !lines[0].MessageStop? {
      ClaudeTextsAre(lines[1..]);
      JoinAll(TextOf(lines[0]), ClaudeTexts(lines[1..]));
      if lines[0].TextDelta? { JoinConcat([], lines[0].text); }
    }
  }

  function ClaudeFragments(lines: seq<ClaudeLine>): seq<Fragment> {
    if lines == [] || lines[0].MessageStop? then [] else FragmentOf(lines[0]) + ClaudeFragments(lines[1..])
  }

  function ClaudeTexts(lines: seq<ClaudeLine>): seq<string> {
    if lines == [] || lines[0].MessageStop? then [] else TextOf(lines[0]) + ClaudeTexts(lines[1..])
  }

  method AbsorbLine(calls: map<int, Part>, line: ClaudeLine, ghost before: seq<Fragment>) returns (r: map<int, Part>)
    requires calls == AbsorbAll(before)
    ensures r == AbsorbAll(before + FragmentOf(line))
  {
    r := calls;
    match line {
      case BlockStart(index, id, name, input) =>
        AbsorbConcat(before, Start(index, id, name, input));
        assert FragmentOf(line) == [Start(index, id, name, input)];
        r := r[index := Part(id, name, if input.Some? then input.value else "", input.Some?)];
      case JsonDelta(index, partial) =>
        AbsorbConcat(before, More(index, "", "", partial));
        assert FragmentOf(line) == [More(index, "", "", partial)];
        var current := if index in r then r[index] else EMPTY;
        if partial.Some? {
          current := current.(arguments := current.arguments + partial.value, hasArguments := true);
        }
        assert current.name + "" == current.name;
        r := r[index := current];
      case _ =>
        assert before + FragmentOf(line) == before;
    }
  }

  /** `_claude_stream` */
  method ClaudeStream(lines: seq<ClaudeLine>, decode: string -> Option<Problem>) returns (events: seq<Event>)
    ensures events == Reply(ClaudeFragments(lines), ClaudeTexts(lines), decode, "")
  {
    assert AbsorbAll([]) == map[] && Join([]) == "";
    hide AbsorbAll, Join, Sorted, Finish, ContentOf, TextOf, FragmentOf;
    var calls: map<int, Part> := map[];
    var text := "";
    ghost var fragments: seq<Fragment> := [];
    ghost var texts: seq<string> := [];
    events := [];
    var i := 0;
    while i < |lines| && !lines[i].MessageStop?
      invariant i <= |lines|
      invariant calls == AbsorbAll(fragments) && fragments + ClaudeFragments(lines[i..]) == ClaudeFragments(lines)
      invariant text == Join(texts) && events == Shown(texts) && texts + ClaudeTexts(lines[i..]) == ClaudeTexts(lines)
    {
      assert lines[i..][1..] == lines[i + 1..];
      Regroup(texts, TextOf(lines[i]), ClaudeTexts(lines[i + 1..]), ClaudeTexts(lines));
      Regroup(fragments, FragmentOf(lines[i]), ClaudeFragments(lines[i + 1..]), ClaudeFragments(lines));
      text, events := Show(TextOf(lines[i]), text, events, texts);
      calls := AbsorbLine(calls, lines[i], fragments);
      texts, fragments := texts + TextOf(lines[i]), fragments + FragmentOf(lines[i]);
      i := i + 1;
    }
    assert ClaudeFragments(lines[i..]) == [] && ClaudeTexts(lines[i..]) == [];
    assert fragments == ClaudeFragments(lines) && texts == ClaudeTexts(lines);
    events := events + [Finish(Sorted(calls), decode, text, "")];
  }

  // ------------------------------------------------------------ the reply does not depend on the interleaving

  /** Streams that deliver the same texts and, call by call, the same fragments give the same reply. */
  lemma RepliesAgree(p: seq<Fragment>, q: seq<Fragment>, texts: seq<string>, decode: string -> Option<Problem>,
      reasoning: string)
    requires SameCalls(p, q)
    ensures Reply(p, texts, decode, reasoning) == Reply(q, texts, decode, reasoning)
  {
    InterleavingDoesNotMatter(p, q);
  }

  /** The completed text is what was shown, stripped; the calls stand in the order of their indices. */
  lemma CompletedReply(fragments: seq<Fragment>, texts: seq<string>, decode: string -> Option<Problem>,
      reasoning: string)
    requires var r := Reply(fragments, texts, decode, reasoning); r[|r| - 1].Completed?
    ensures var r := Reply(fragments, texts, decode, reasoning);
            var last := r[|r| - 1];
            var indices := InOrder(AbsorbAll(fragments).Keys);
            && last.text == Strip(Join(texts))
            && Increasing(indices) && |last.calls| == |indices|
            && forall i | 0 <= i < |indices| ::
                 && Of(fragments, indices[i]) != []
                 && var p := Build(Of(fragments, indices[i]));
                    last.calls[i] == ToolCall(if p.id == "" then Numbered(indices[i]) else Own(p.id), p.name,
                                              if p.hasArguments then p.arguments else "{}")
  {
    var calls := Sorted(AbsorbAll(fragments));
    var indices := InOrder(AbsorbAll(fragments).Keys);
    InOrderIncreases(AbsorbAll(fragments).Keys);
    FinishedAs(calls, 0, decode, Join(texts), reasoning);
    forall i | 0 <= i < |indices|
      ensures Of(fragments, indices[i]) != [] && calls[i] == CallOf(indices[i], Build(Of(fragments, indices[i])))
    {
      assert indices[i] in indices;
      CallIsItsFragments(fragments, indices[i]);
    }
  }

  lemma {:induction false} FinishedAs(calls: seq<ToolCall>, i: nat, decode: string -> Option<Problem>, text: string,
      reasoning: string)
    requires i <= |calls|
    ensures var e := FinishFrom(calls, i, decode, text, reasoning);
            e.Completed? ==> e == Completed(Strip(text), calls, reasoning)
    decreases |calls| - i
  {
    if i < |calls| { FinishedAs(calls, i + 1, decode, text, reasoning); }
  }
}
