/**
 * The command-line interpreter of `RedisService.ExecuteCommand`: split the line
 * on white space, lower-case the command name, merge quoted parameters, check
 * the arguments of the command and name the one store call to make.
 * The store itself is not modelled: a `StoreCall` is the call with its
 * already-coerced arguments.
 */
module RedisCommand {
  import opened Wrappers
  import opened GoStrings
  import opened GoStrconv
  import opened Ascii

  /** The single store operation a valid command leads to. */
  datatype StoreCall =
    | LPush(key: string, values: seq<string>)
    | RPush(key: string, values: seq<string>)
    | LPop(key: string)
    | RPop(key: string)
    | LRange(key: string, start: int64, stop: int64)

  /** The lower-case command name that selects each store call. */
  function CommandName(c: StoreCall): string {
    match c
    case LPush(_, _) => "lpush"
    case RPush(_, _) => "rpush"
    case LPop(_) => "lpop"
    case RPop(_) => "rpop"
    case LRange(_, _, _) => "lrange"
  }

  /** The textual arguments a push or pop call was built from. */
  function Arguments(c: StoreCall): seq<string>
    requires !c.LRange?
  {
    match c
    case LPush(k, vs) => [k] + vs
    case RPush(k, vs) => [k] + vs
    case LPop(k) => [k]
    case RPop(k) => [k]
  }

  // ---------------------------------------------------------------------------
  // Quote merging
  // ---------------------------------------------------------------------------

  predicate IsQuote(c: char) {
    c == '"' || c == '\''
  }

  /** `strings.HasPrefix(p, "\"") || strings.HasPrefix(p, "'")`. */
  predicate OpensQuote(p: string) {
    |p| > 0 && IsQuote(p[0])
  }

  /** `strings.HasSuffix(p, string(q))`. */
  predicate ClosesQuote(p: string, q: char) {
    |p| > 0 && p[|p| - 1] == q
  }

  function DropLast(p: string): string
    requires |p| > 0
  {
    p[..|p| - 1]
  }

  /** The variables of the merging loop: `processedParams`, `currentParam`, `inQuotes`, `quoteChar`. */
  datatype MergeState = MergeState(processed: seq<string>, current: string, inQuotes: bool, quoteChar: char)

  const Start := MergeState([], "", false, '\0')

  /** One iteration of the merging loop on the field `p`. */
  function Step(st: MergeState, p: string): (r: MergeState)
    ensures |st.processed| <= |r.processed| <= |st.processed| + 1
    ensures r.inQuotes ==> r.processed == st.processed
  {
    if !st.inQuotes then
      if OpensQuote(p) then MergeState(st.processed, p[1..], true, p[0])
      else MergeState(st.processed + [p], st.current, false, st.quoteChar)
    else if ClosesQuote(p, st.quoteChar) then
      MergeState(st.processed + [st.current + " " + DropLast(p)], "", false, st.quoteChar)
    else
      MergeState(st.processed, st.current + " " + p, true, st.quoteChar)
  }

  /** The loop run from state `st` over the remaining fields `ps`. */
  function Run(st: MergeState, ps: seq<string>): (r: MergeState)
    decreases |ps|
    ensures |st.processed| <= |r.processed| <= |st.processed| + |ps|
  {
    if ps == [] then st else Run(Step(st, ps[0]), ps[1..])
  }

  /** The loop only ever appends: parameters already produced are never rewritten. */
  lemma {:induction false} RunKeepsProcessed(st: MergeState, ps: seq<string>)
    ensures Run(st, ps).processed[..|st.processed|] == st.processed
    decreases |ps|
  {
    if ps != [] {
      var next := Step(st, ps[0]);
      RunKeepsProcessed(next, ps[1..]);
      var r := Run(next, ps[1..]);
      assert next.processed[..|st.processed|] == st.processed;
      assert r.processed[..|st.processed|] == r.processed[..|next.processed|][..|st.processed|];
    }
  }

  /** The outcome of the loop and of the check after it. */
  function Finish(st: MergeState): (r: Result<seq<string>, string>)
    ensures r.Failure? <==> st.inQuotes
    ensures r.Failure? ==> r.error == "unclosed quotes"
    ensures r.Success? ==> r.value == st.processed
  {
    if st.inQuotes then Failure("unclosed quotes") else Success(st.processed)
  }

  /** The parameters the merging loop produces from the raw parameters `ps`. */
  function MergeQuotes(ps: seq<string>): (r: Result<seq<string>, string>)
    ensures r.Failure? ==> r.error == "unclosed quotes"
    ensures r.Success? ==> |r.value| <= |ps|
  {
    Finish(Run(Start, ps))
  }

  // A reference definition of the same grouping, read top-down: an unquoted
  // field stands alone; a field opening a quote swallows every later field up
  // to the first one that ends with the same quote character.

  /** The first index whose field ends with `q`, or `|ps|` when there is none. */
  function CloseIndex(ps: seq<string>, q: char): (k: nat)
    ensures k <= |ps|
    ensures forall j :: 0 <= j < k ==> !ClosesQuote(ps[j], q)
    ensures k < |ps| ==> ClosesQuote(ps[k], q)
  {
    if ps == [] then 0
    else if ClosesQuote(ps[0], q) then 0
    else 1 + CloseIndex(ps[1..], q)
  }

  function Prepend(acc: seq<string>, r: Result<seq<string>, string>): Result<seq<string>, string> {
    match r
    case Success(xs) => Success(acc + xs)
    case Failure(e) => Failure(e)
  }

  /** The quoted parameter built from an opening field, the fields inside, and the closing field. */
  function QuotedParam(first: string, inner: seq<string>, last: string): string
    requires |first| > 0 && |last| > 0
  {
    Join([first[1..]] + inner + [DropLast(last)])
  }

  function Grouped(ps: seq<string>): Result<seq<string>, string>
    decreases |ps|
  {
    if ps == [] then Success([])
    else if !OpensQuote(ps[0]) then Prepend([ps[0]], Grouped(ps[1..]))
    else
      var rest := ps[1..];
      var k := CloseIndex(rest, ps[0][0]);
      if k == |rest| then Failure("unclosed quotes")
      else Prepend([QuotedParam(ps[0], rest[..k], rest[k])], Grouped(rest[k + 1..]))
  }

  /** Inside a quote the loop appends each field with one space until the first closing field. */
  lemma {:induction false} RunInQuotes(st: MergeState, ps: seq<string>)
    requires st.inQuotes
    ensures var k := CloseIndex(ps, st.quoteChar);
      if k == |ps| then
        Run(st, ps) == MergeState(st.processed, st.current + Spaced(ps), true, st.quoteChar)
      else
        Run(st, ps) == Run(MergeState(st.processed + [st.current + Spaced(ps[..k] + [DropLast(ps[k])])], "", false, st.quoteChar), ps[k + 1..])
    decreases |ps|
  {
    var q := st.quoteChar;
    if ps == [] {
      assert st.current + Spaced(ps) == st.current;
    } else if ClosesQuote(ps[0], q) {
      var d := DropLast(ps[0]);
      assert ps[..0] + [d] == [d];
      assert Spaced([d]) == " " + d;
      assert st.current + Spaced([d]) == st.current + " " + d;
    } else {
      var st' := Step(st, ps[0]);
      assert st' == MergeState(st.processed, st.current + " " + ps[0], true, q);
      RunInQuotes(st', ps[1..]);
      var k' := CloseIndex(ps[1..], q);
      var k := CloseIndex(ps, q);
      assert k == k' + 1;
      if k' == |ps[1..]| {
        assert Spaced(ps) == " " + ps[0] + Spaced(ps[1..]);
        assert st'.current + Spaced(ps[1..]) == st.current + Spaced(ps);
      } else {
        var inner := ps[..k] + [DropLast(ps[k])];
        assert inner[0] == ps[0];
        assert inner[1..] == ps[1..][..k'] + [DropLast(ps[1..][k'])];
        assert Spaced(inner) == " " + ps[0] + Spaced(inner[1..]);
        assert st'.current + Spaced(inner[1..]) == st.current + Spaced(inner);
        assert ps[1..][k' + 1..] == ps[k + 1..];
        assert ps[1..][k'] == ps[k];
      }
    }
  }

  /** Outside a quote, the rest of the loop produces exactly the reference grouping. */
  lemma {:induction false} RunMatchesGrouped(st: MergeState, ps: seq<string>)
    requires !st.inQuotes
    ensures Finish(Run(st, ps)) == Prepend(st.processed, Grouped(ps))
    decreases |ps|, 1
  {
    if ps == [] {
      assert st.processed + [] == st.processed;
    } else if !OpensQuote(ps[0]) {
      RunMatchesGrouped(Step(st, ps[0]), ps[1..]);
      match Grouped(ps[1..])
      case Success(xs) =>
        assert st.processed + [ps[0]] + xs == st.processed + ([ps[0]] + xs);
      case Failure(_) =>
    } else {
      QuotedRunMatchesGrouped(st, ps);
    }
  }

  /** The case of `RunMatchesGrouped` where the next field opens a quote. */
  lemma {:induction false} QuotedRunMatchesGrouped(st: MergeState, ps: seq<string>)
    requires !st.inQuotes && ps != [] && OpensQuote(ps[0])
    ensures Finish(Run(st, ps)) == Prepend(st.processed, Grouped(ps))
    decreases |ps|, 0
  {
    var q := ps[0][0];
    var st' := Step(st, ps[0]);
    var rest := ps[1..];
    assert st' == MergeState(st.processed, ps[0][1..], true, q);
    assert Run(st, ps) == Run(st', rest);
    RunInQuotes(st', rest);
    var k := CloseIndex(rest, q);
    if k < |rest| {
      var param := st'.current + Spaced(rest[..k] + [DropLast(rest[k])]);
      OpeningFieldJoined(ps[0], rest[..k], rest[k]);
      assert Grouped(ps) == Prepend([param], Grouped(rest[k + 1..]));
      var st'' := MergeState(st.processed + [param], "", false, q);
      assert Run(st', rest) == Run(st'', rest[k + 1..]);
      RunMatchesGrouped(st'', rest[k + 1..]);
      PrependTwice(st.processed, param, Grouped(rest[k + 1..]));
    }
  }

  lemma PrependTwice(acc: seq<string>, x: string, r: Result<seq<string>, string>)
    ensures Prepend(acc + [x], r) == Prepend(acc, Prepend([x], r))
  {
    match r
    case Success(xs) =>
      assert acc + [x] + xs == acc + ([x] + xs);
    case Failure(_) =>
  }

  /** The text the loop accumulates from an opening field is the reference's quoted parameter. */
  lemma OpeningFieldJoined(first: string, inner: seq<string>, last: string)
    requires |first| > 0 && |last| > 0
    ensures first[1..] + Spaced(inner + [DropLast(last)]) == QuotedParam(first, inner, last)
  {
    var parts := [first[1..]] + inner + [DropLast(last)];
    assert parts[0] == first[1..];
    assert parts[1..] == inner + [DropLast(last)];
  }

  /** The merging loop and the reference grouping agree on every input. */
  lemma MergeQuotesIsGrouped(ps: seq<string>)
    ensures MergeQuotes(ps) == Grouped(ps)
  {
    RunMatchesGrouped(Start, ps);
    match Grouped(ps)
    case Success(xs) => assert [] + xs == xs;
    case Failure(_) =>
  }

  lemma {:induction false} GroupedUnquoted(ps: seq<string>)
    requires forall i :: 0 <= i < |ps| ==> !OpensQuote(ps[i])
    ensures Grouped(ps) == Success(ps)
  {
    if ps != [] {
      GroupedUnquoted(ps[1..]);
      assert [ps[0]] + ps[1..] == ps;
    }
  }

  /** Fields that open no quote pass through unchanged and in order. */
  lemma UnquotedFieldsPassThrough(ps: seq<string>)
    requires forall i :: 0 <= i < |ps| ==> !OpensQuote(ps[i])
    ensures MergeQuotes(ps) == Success(ps)
  {
    MergeQuotesIsGrouped(ps);
    GroupedUnquoted(ps);
  }

  /**
   * A field opening a quote, the fields after it that do not end with that
   * quote, and the first one that does become ONE parameter: the fields joined
   * by single spaces, without the opening and the closing quote character.
   */
  lemma QuotedSpanMerged(first: string, inner: seq<string>, last: string, rest: seq<string>)
    requires OpensQuote(first)
    requires forall i :: 0 <= i < |inner| ==> !ClosesQuote(inner[i], first[0])
    requires ClosesQuote(last, first[0])
    ensures MergeQuotes([first] + inner + [last] + rest) == Prepend([QuotedParam(first, inner, last)], MergeQuotes(rest))
  {
    var ps := [first] + inner + [last] + rest;
    var tail := ps[1..];
    assert tail == inner + [last] + rest;
    var k := CloseIndex(tail, first[0]);
    assert tail[|inner|] == last;
    assert forall j :: 0 <= j < |inner| ==> tail[j] == inner[j];
    assert k == |inner|;
    assert tail[..k] == inner && tail[k] == last && tail[k + 1..] == rest;
    MergeQuotesIsGrouped(ps);
    MergeQuotesIsGrouped(rest);
  }

  lemma {:induction false} RunAppend(st: MergeState, ps: seq<string>, p: string)
    ensures Run(st, ps + [p]) == Step(Run(st, ps), p)
    decreases |ps|
  {
    if ps == [] {
      assert [] + [p] == [p];
    } else {
      assert (ps + [p])[1..] == ps[1..] + [p];
      RunAppend(Step(st, ps[0]), ps[1..], p);
    }
  }

  /**
   * A quote opened by the last field is never closed, even when that field
   * itself ends with the quote (`"abc"`): the closing test only looks at
   * later fields.
   */
  lemma QuoteOpenedByLastFieldIsUnclosed(ps: seq<string>, p: string)
    requires MergeQuotes(ps).Success?
    requires OpensQuote(p)
    ensures MergeQuotes(ps + [p]) == Failure("unclosed quotes")
  {
    RunAppend(Start, ps, p);
  }

  /** The one-field quoted word `"abc"` is reported as an unclosed quote. */
  lemma SingleQuotedWordIsUnclosed()
    ensures MergeQuotes(["\"abc\""]) == Failure("unclosed quotes")
  {
    QuoteOpenedByLastFieldIsUnclosed([], "\"abc\"");
    assert [] + ["\"abc\""] == ["\"abc\""];
  }

  // ---------------------------------------------------------------------------
  // Validation and dispatch
  // ---------------------------------------------------------------------------

  predicate IsSupported(cmd: string) {
    cmd == "lpush" || cmd == "rpush" || cmd == "lpop" || cmd == "rpop" || cmd == "lrange"
  }

  /** `lpush` and `rpush`: a key and at least one value. */
  function ValidatePush(cmd: string, ps: seq<string>): (r: Result<StoreCall, string>)
    requires cmd == "lpush" || cmd == "rpush"
    ensures r.Success? <==> |ps| >= 2
    ensures r.Success? ==> CommandName(r.value) == cmd && Arguments(r.value) == ps
    ensures cmd == "lpush" && |ps| < 2 ==> r == Failure("lpush requires at least 2 arguments")
    ensures cmd == "rpush" && |ps| < 2 ==> r == Failure("rpush requires at least 2 arguments")
  {
    if cmd == "lpush" then
      if |ps| < 2 then Failure("lpush requires at least 2 arguments") else Success(LPush(ps[0], ps[1..]))
    else
      if |ps| < 2 then Failure("rpush requires at least 2 arguments") else Success(RPush(ps[0], ps[1..]))
  }

  /** `lpop` and `rpop`: exactly one key. */
  function ValidatePop(cmd: string, ps: seq<string>): (r: Result<StoreCall, string>)
    requires cmd == "lpop" || cmd == "rpop"
    ensures r.Success? <==> |ps| == 1
    ensures r.Success? ==> CommandName(r.value) == cmd && Arguments(r.value) == ps
    ensures cmd == "lpop" && |ps| != 1 ==> r == Failure("lpop requires exactly 1 argument")
    ensures cmd == "rpop" && |ps| != 1 ==> r == Failure("rpop requires exactly 1 argument")
  {
    if cmd == "lpop" then
      if |ps| != 1 then Failure("lpop requires exactly 1 argument") else Success(LPop(ps[0]))
    else
      if |ps| != 1 then Failure("rpop requires exactly 1 argument") else Success(RPop(ps[0]))
  }

  /** `lrange`: a key and two base-10 64-bit indices; the start index is checked first. */
  function ValidateRange(ps: seq<string>): (r: Result<StoreCall, string>)
    ensures r.Success? <==> |ps| == 3 && ParseInt64(ps[1]).Some? && ParseInt64(ps[2]).Some?
    ensures r.Success? ==>
      r.value.LRange? && r.value.key == ps[0] &&
      ParseInt64(ps[1]) == Some(r.value.start) && ParseInt64(ps[2]) == Some(r.value.stop)
    ensures |ps| != 3 ==> r == Failure("lrange requires exactly 3 arguments")
    ensures |ps| == 3 && ParseInt64(ps[1]).None? ==> r == Failure("invalid start index")
    ensures |ps| == 3 && ParseInt64(ps[1]).Some? && ParseInt64(ps[2]).None? ==> r == Failure("invalid stop index")
  {
    if |ps| != 3 then Failure("lrange requires exactly 3 arguments")
    else match ParseInt64(ps[1])
      case None => Failure("invalid start index")
      case Some(start) =>
        match ParseInt64(ps[2])
        case None => Failure("invalid stop index")
        case Some(stop) => Success(LRange(ps[0], start, stop))
  }

  /** The per-command `switch`: only a supported name with valid arguments yields a store call. */
  function Validate(cmd: string, ps: seq<string>): (r: Result<StoreCall, string>)
    ensures r.Success? ==> IsSupported(cmd) && CommandName(r.value) == cmd
    ensures !IsSupported(cmd) ==> r == Failure("unsupported command: " + cmd)
  {
    if cmd == "lpush" || cmd == "rpush" then ValidatePush(cmd, ps)
    else if cmd == "lpop" || cmd == "rpop" then ValidatePop(cmd, ps)
    else if cmd == "lrange" then
      var r := ValidateRange(ps);
      assert r.Success? ==> CommandName(r.value) == "lrange";
      r
    else Failure("unsupported command: " + cmd)
  }

  /** The whole interpreter as a function of the raw command line. */
  function Dispatch(line: string): (r: Result<StoreCall, string>)
    ensures r == Failure("empty command") <==> AllSpace(line)
    ensures r.Success? ==> |Fields(line)| > 0 && CommandName(r.value) == ToLower(Fields(line)[0])
    ensures |Fields(line)| > 0 && MergeQuotes(Fields(line)[1..]).Failure? ==> r == Failure("unclosed quotes")
    ensures |Fields(line)| > 0 && !IsSupported(ToLower(Fields(line)[0])) && MergeQuotes(Fields(line)[1..]).Success? ==>
      r == Failure("unsupported command: " + ToLower(Fields(line)[0]))
  {
    var args := Fields(line);
    if |args| == 0 then Failure("empty command")
    else
      var cmd := ToLower(args[0]);
      match MergeQuotes(args[1..])
      case Failure(e) => Failure(e)
      case Success(ps) =>
        var r := Validate(cmd, ps);
        assert r.Failure? && !IsSupported(cmd) ==> |r.error| == 21 + |cmd| > 13;
        r
  }

  /** A command that is accepted carries the merged parameters unchanged. */
  lemma DispatchKeepsParameters(line: string)
    ensures Dispatch(line).Success? && !Dispatch(line).value.LRange? ==>
      MergeQuotes(Fields(line)[1..]).Success? && Arguments(Dispatch(line).value) == MergeQuotes(Fields(line)[1..]).value
    ensures Dispatch(line).Success? && Dispatch(line).value.LRange? ==>
      var ps := MergeQuotes(Fields(line)[1..]);
      && ps.Success? && |ps.value| == 3
      && Dispatch(line).value.key == ps.value[0]
      && ParseInt64(ps.value[1]) == Some(Dispatch(line).value.start)
      && ParseInt64(ps.value[2]) == Some(Dispatch(line).value.stop)
  {
  }

  /** Only the lower-cased command name matters: `LPUSH`, `LPush` and `lpush` are one command. */
  lemma CommandNameIsCaseInsensitive(a: string, b: string)
    requires |Fields(a)| > 0 && |Fields(b)| > 0
    requires ToLower(Fields(a)[0]) == ToLower(Fields(b)[0])
    requires Fields(a)[1..] == Fields(b)[1..]
    ensures Dispatch(a) == Dispatch(b)
  {
  }

  /** The interpreter on a line with at least one field: merge the rest, then check the lowered name. */
  lemma DispatchOfFields(line: string, name: string, ps: seq<string>)
    requires Fields(line) == [name] + ps
    ensures Dispatch(line) == match MergeQuotes(ps)
      case Failure(e) => Failure(e)
      case Success(qs) => Validate(ToLower(name), qs)
  {
    assert Fields(line)[1..] == ps;
  }

  /** `lpush k "abc"`: the one-field quoted value is reported as unclosed and nothing is pushed. */
  lemma DispatchQuotedSingleWord(line: string)
    requires Fields(line) == ["lpush", "k", "\"abc\""]
    ensures Dispatch(line) == Failure("unclosed quotes")
  {
    QuoteOpenedByLastFieldIsUnclosed(["k"], "\"abc\"");
    assert Fields(line)[1..] == ["k"] + ["\"abc\""];
    UnquotedFieldsPassThrough(["k"]);
  }

  /** `LPUSH K "a b"`: the name is lower-cased, the parameters keep their case and the quoted pair is merged. */
  lemma DispatchQuotedPush(line: string)
    requires Fields(line) == ["LPUSH", "K", "\"a", "b\""]
    ensures Dispatch(line) == Success(LPush("K", ["a b"]))
  {
    DispatchOfFields(line, "LPUSH", ["K", "\"a", "b\""]);
    QuotedPairMerges();
    PushExampleValidates();
  }

  lemma PushExampleValidates()
    ensures Validate(ToLower("LPUSH"), ["K", "a b"]) == Success(LPush("K", ["a b"]))
  {
    assert ToLower("LPUSH") == "lpush";
  }

  /** The fields `K`, `"a` and `b"` merge into the parameters `K` and `a b`. */
  lemma QuotedPairMerges()
    ensures MergeQuotes(["K", "\"a", "b\""]) == Success(["K", "a b"])
  {
    var ps := ["K", "\"a", "b\""];
    var open, close := "\"a", "b\"";
    assert open[1..] == "a" && DropLast(close) == "b";
    assert QuotedParam(open, [], close) == "a b" by {
      assert [open[1..]] + [] + [DropLast(close)] == ["a", "b"];
      assert Spaced(["b"]) == " b";
    }
    QuotedSpanMerged(open, [], close, []);
    assert [open] + [] + [close] + [] == [open, close];
    assert MergeQuotes([]) == Success([]);
    assert ["a b"] + [] == ["a b"];
    assert MergeQuotes([open, close]) == Success(["a b"]);
    assert Run(Start, ps) == Run(Step(Start, "K"), [open, close]);
    RunMatchesGrouped(Step(Start, "K"), [open, close]);
    MergeQuotesIsGrouped([open, close]);
    assert Step(Start, "K").processed == ["K"];
    assert ["K"] + ["a b"] == ["K", "a b"];
  }

  /** `lrange list 0 -1` asks for the range from index 0 to index -1. */
  lemma DispatchRange(line: string)
    requires Fields(line) == ["lrange", "list", "0", "-1"]
    ensures Dispatch(line) == Success(LRange("list", 0, -1))
  {
    var ps := ["list", "0", "-1"];
    DispatchOfFields(line, "lrange", ps);
    RangeExampleMerges();
    RangeExampleValidates();
  }

  lemma RangeExampleMerges()
    ensures MergeQuotes(["list", "0", "-1"]) == Success(["list", "0", "-1"])
  {
    UnquotedFieldsPassThrough(["list", "0", "-1"]);
  }



  lemma RangeExampleValidates()
    ensures Validate(ToLower("lrange"), ["list", "0", "-1"]) == Success(LRange("list", 0, -1))
  {
    assert ToLower("lrange") == "lrange";
    ParseRangeBounds();
  }

  lemma ParseRangeBounds()
    ensures ParseInt64("0") == Some(0) && ParseInt64("-1") == Some(-1)
  {
    assert "-1"[1..] == "1";
    assert DecimalValue("1") == DecimalValue("") * 10 + 1;
  }

  /**
   * `RedisService.ExecuteCommand` up to the store call: the same steps as
   * `Dispatch`, with the quote merging done by the source's loop.
   */
  method ExecuteCommand(command: string) returns (r: Result<StoreCall, string>)
    ensures r == Dispatch(command)
  {
    var args := Fields(command);
    if |args| == 0 {
      return Failure("empty command");
    }
    var cmd := ToLower(args[0]);
    var params := args[1..];

    var processedParams: seq<string> := [];
    var currentParam := "";
    var inQuotes := false;
    var quoteChar := '\0';
    var i := 0;
    while i < |params|
      invariant 0 <= i <= |params|
      invariant Run(MergeState(processedParams, currentParam, inQuotes, quoteChar), params[i..]) == Run(Start, params)
    {
      var param := params[i];
      assert params[i..][1..] == params[i + 1..];
      if !inQuotes {
        if |param| > 0 && (param[0] == '"' || param[0] == '\'') {
          inQuotes := true;
          quoteChar := param[0];
          currentParam := param[1..];
        } else {
          processedParams := processedParams + [param];
        }
      } else {
        if |param| > 0 && param[|param| - 1] == quoteChar {
          currentParam := currentParam + " " + param[..|param| - 1];
          processedParams := processedParams + [currentParam];
          inQuotes := false;
          currentParam := "";
        } else {
          currentParam := currentParam + " " + param;
        }
      }
      i := i + 1;
    }

    if inQuotes {
      return Failure("unclosed quotes");
    }
    r := Validate(cmd, processedParams);
  }
}
