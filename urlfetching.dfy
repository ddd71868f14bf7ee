/**
  The text processing of urlfetching.py: turning an example's input text
  (`nums = [2,7,11,15], target = 9`) into one stdin line, formatting an
  example's output text, and taking the problem identifier from a URL.

  `ast.literal_eval` is a foreign parser: it is a parameter `eval` from the
  bracketed text to the items of the list it denotes, or `None` where it
  raises. Values are integers, strings and lists of values.
 */
module UrlFetching {
  import opened Text

  /** A value `ast.literal_eval` can produce here. */
  datatype PyValue = Int(i: int) | Str(s: string) | List(items: seq<PyValue>)

  /** The exception a call raises. */
  datatype PyError =
    | IndexError       // string or list index out of range
    | ValueError       // "Invalid URL format"
    | EvalError        // `ast.literal_eval` rejected the text
    | AssertionError   // the shape check of parse_input, or main's length check
    | TypeError        // iterating a non-iterable

  datatype Result<T> = Ok(value: T) | Err(error: PyError)

  /** The bracketed text → list items step of `ast.literal_eval`; `None` where it raises. */
  type Eval = string -> Option<seq<PyValue>>

  // ---------------------------------------------------------------------------
  // get_array_dimensions and flatten_array

  /** `get_array_dimensions`: the length of the list, then the dimensions of its first element. */
  function ArrayDimensions(v: PyValue): (dims: seq<nat>)
    ensures dims == [] <==> !v.List? || v.items == []
    ensures dims != [] ==> dims[0] == |v.items|
    ensures forall k :: 0 <= k < |dims| ==> dims[k] >= 1
  {
    if !v.List? || v.items == [] then []
    else [|v.items|] + ArrayDimensions(v.items[0])
  }

  /** `flatten_array` over the items of a list: every non-list leaf, depth first, left to right. */
  function Flatten(items: seq<PyValue>): (leaves: seq<PyValue>)
    ensures forall k :: 0 <= k < |leaves| ==> !leaves[k].List?
    decreases items
  {
    if items == [] then []
    else Leaves(items[0]) + Flatten(items[1..])
  }

  /** The leaves of one item: itself when it is not a list. */
  function Leaves(v: PyValue): (leaves: seq<PyValue>)
    ensures forall k :: 0 <= k < |leaves| ==> !leaves[k].List?
    decreases v
  {
    if v.List? then Flatten(v.items) else [v]
  }

  /** Flattening distributes over concatenation, so the leaves keep the order of the items. */
  lemma {:induction false} FlattenAppend(a: seq<PyValue>, b: seq<PyValue>)
    ensures Flatten(a + b) == Flatten(a) + Flatten(b)
    decreases |a|
  {
    if a != [] {
      assert (a + b)[0] == a[0] && (a + b)[1..] == a[1..] + b;
      FlattenAppend(a[1..], b);
    } else {
      assert a + b == b;
    }
  }

  /** A list without nested lists flattens to itself. */
  lemma {:induction false} FlattenFlat(items: seq<PyValue>)
    requires forall k :: 0 <= k < |items| ==> !items[k].List?
    ensures Flatten(items) == items
    decreases |items|
  {
    if items != [] {
      FlattenFlat(items[1..]);
    }
  }

  /** `v` is a rectangular array whose dimensions are `dims`: a leaf when `dims` is empty. */
  predicate HasShape(v: PyValue, dims: seq<nat>)
    decreases |dims|
  {
    if dims == [] then !v.List?
    else
      && v.List? && |v.items| == dims[0]
      && (forall k :: 0 <= k < |v.items| ==> HasShape(v.items[k], dims[1..]))
  }

  function Product(dims: seq<nat>): nat {
    if dims == [] then 1 else dims[0] * Product(dims[1..])
  }

  /** For a rectangular array without empty sub-lists, the dimensions found are its shape. */
  lemma {:induction false} ShapeDimensions(v: PyValue, dims: seq<nat>)
    requires HasShape(v, dims)
    requires forall k :: 0 <= k < |dims| ==> dims[k] >= 1
    ensures ArrayDimensions(v) == dims
    decreases |dims|
  {
    if dims != [] {
      assert HasShape(v.items[0], dims[1..]);
      ShapeDimensions(v.items[0], dims[1..]);
    }
  }

  /** A rectangular array has as many leaves as the product of its dimensions. */
  lemma {:induction false} ShapeLeaves(v: PyValue, dims: seq<nat>)
    requires HasShape(v, dims)
    ensures |Leaves(v)| == Product(dims)
    decreases |dims|, 0
  {
    if dims != [] {
      ShapeItemsLeaves(v.items, dims[1..]);
    }
  }

  lemma {:induction false} ShapeItemsLeaves(items: seq<PyValue>, dims: seq<nat>)
    requires forall k :: 0 <= k < |items| ==> HasShape(items[k], dims)
    ensures |Flatten(items)| == |items| * Product(dims)
    decreases |dims|, 1, |items|
  {
    if items != [] {
      ShapeLeaves(items[0], dims);
      ShapeItemsLeaves(items[1..], dims);
      assert |Flatten(items)| == |Leaves(items[0])| + |Flatten(items[1..])|;
      assert |items| * Product(dims) == Product(dims) + (|items| - 1) * Product(dims);
    }
  }

  /** Only the first element is consulted: `[[1, 2], [3]]` has dimensions `[2, 2]`. */
  lemma RaggedDimensions()
    ensures ArrayDimensions(List([List([Int(1), Int(2)]), List([Int(3)])])) == [2, 2]
  {
    var first := List([Int(1), Int(2)]);
    assert ArrayDimensions(Int(1)) == [];
    assert ArrayDimensions(first) == [2];
  }

  // ---------------------------------------------------------------------------
  // str() of a value

  /** Python's `str`: digits for an integer, the text itself for a string, `repr` for a list. */
  function PyStr(v: PyValue): string {
    if v.Str? then v.s else Repr(v)
  }

  /** Python's `repr` (quotes inside strings are not escaped here). */
  function Repr(v: PyValue): string
    decreases v
  {
    match v
    case Int(i) => IntToDecimal(i)
    case Str(s) => "'" + s + "'"
    case List(items) => "[" + ReprItems(items) + "]"
  }

  /** The items of a list's `repr`, separated by `, `. */
  function ReprItems(items: seq<PyValue>): string
    decreases items
  {
    if items == [] then ""
    else if |items| == 1 then Repr(items[0])
    else Repr(items[0]) + ", " + ReprItems(items[1..])
  }

  /** `map(str, values)` */
  function Strs(values: seq<PyValue>): (r: seq<string>)
    ensures |r| == |values| && forall k :: 0 <= k < |r| ==> r[k] == PyStr(values[k])
  {
    if values == [] then []
    else
      var rest := Strs(values[1..]);
      assert forall k :: 1 <= k < |values| ==> rest[k - 1] == PyStr(values[k]);
      [PyStr(values[0])] + rest
  }

  /** `map(str, shape)` */
  function Decimals(ns: seq<nat>): (r: seq<string>)
    ensures |r| == |ns| && forall k :: 0 <= k < |r| ==> r[k] == NatToDecimal(ns[k])
  {
    if ns == [] then []
    else
      var rest := Decimals(ns[1..]);
      assert forall k :: 1 <= k < |ns| ==> rest[k - 1] == NatToDecimal(ns[k]);
      [NatToDecimal(ns[0])] + rest
  }

  // ---------------------------------------------------------------------------
  // get_problem_identifier

  /** The search of `enumerate(parts)` from position `i`. */
  function SegmentAfterProblems(parts: seq<string>, i: nat): (r: Result<string>)
    requires i <= |parts|
    ensures r == Err(ValueError) <==> forall k :: i <= k < |parts| ==> parts[k] != "problems"
    ensures r.Ok? <==>
      exists k ::
        && i <= k < |parts| - 1 && parts[k] == "problems"
        && (forall m :: i <= m < k ==> parts[m] != "problems")
        && r == Ok(parts[k + 1])
    ensures r.Err? ==> r.error == ValueError || (r.error == IndexError && parts[|parts| - 1] == "problems")
    decreases |parts| - i
  {
    if i == |parts| then Err(ValueError)
    else if parts[i] == "problems" then
      (if i + 1 < |parts| then Ok(parts[i + 1]) else Err(IndexError))
    else
      var r := SegmentAfterProblems(parts, i + 1);
      assert forall m :: i <= m < i + 1 ==> parts[m] != "problems";
      r
  }

  /** `get_problem_identifier`: the `/`-segment right after the first segment `problems`. */
  function GetProblemIdentifier(url: string): (r: Result<string>)
    ensures r == Err(ValueError) <==> "problems" !in Split(url, '/')
  {
    SegmentAfterProblems(Split(url, '/'), 0)
  }

  /** The search from `i` finds the first `problems` at `b`. */
  lemma {:induction false} SegmentAt(parts: seq<string>, i: nat, b: nat)
    requires i <= b && b + 1 < |parts| && parts[b] == "problems"
    requires forall m :: i <= m < b ==> parts[m] != "problems"
    ensures SegmentAfterProblems(parts, i) == Ok(parts[b + 1])
    decreases b - i
  {
    if i < b {
      SegmentAt(parts, i + 1, b);
    }
  }

  /** Segments without `/` around `problems` and the identifier. */
  lemma SegmentsWithoutSlash(before: seq<string>, id: string, after: seq<string>)
    requires forall k :: 0 <= k < |before| ==> '/' !in before[k]
    requires '/' !in id
    requires forall k :: 0 <= k < |after| ==> '/' !in after[k]
    ensures var parts := before + ["problems", id] + after;
      forall k :: 0 <= k < |parts| ==> '/' !in parts[k]
  {
    var parts := before + ["problems", id] + after;
    forall k | 0 <= k < |parts|
      ensures '/' !in parts[k]
    {
      if k < |before| {
        assert parts[k] == before[k];
      } else if k >= |before| + 2 {
        assert parts[k] == after[k - |before| - 2];
      }
    }
  }

  /** Joining segments with `/` and taking the identifier back gives the segment after `problems`. */
  lemma ProblemIdentifierOfSegments(before: seq<string>, id: string, after: seq<string>)
    requires "problems" !in before
    requires forall k :: 0 <= k < |before| ==> '/' !in before[k]
    requires '/' !in id
    requires forall k :: 0 <= k < |after| ==> '/' !in after[k]
    ensures GetProblemIdentifier(Join(before + ["problems", id] + after, '/')) == Ok(id)
  {
    var parts := before + ["problems", id] + after;
    SegmentsWithoutSlash(before, id, after);
    SplitJoin(parts, '/');
    SegmentsAround(before, id, after);
    SegmentAt(parts, 0, |before|);
  }

  /** In `before + ["problems", id] + after`, the first `problems` is at `|before|`, followed by `id`. */
  lemma SegmentsAround(before: seq<string>, id: string, after: seq<string>)
    requires "problems" !in before
    ensures var parts := before + ["problems", id] + after;
      && |before| + 1 < |parts| && parts[|before|] == "problems" && parts[|before| + 1] == id
      && forall m :: 0 <= m < |before| ==> parts[m] != "problems"
  {
    var parts := before + ["problems", id] + after;
    assert forall m :: 0 <= m < |before| ==> parts[m] == before[m];
  }

  // ---------------------------------------------------------------------------
  // parse_input

  /** `"]" * depth` */
  function Closing(depth: nat): (c: string)
    ensures |c| == depth && forall k :: 0 <= k < depth ==> c[k] == ']'
  {
    if depth == 0 then [] else [']'] + Closing(depth - 1)
  }

  /** Whether `]` * depth starts at `i`. */
  predicate ClosesAt(s: string, i: nat, depth: nat)
    decreases depth
  {
    depth == 0 || (i < |s| && s[i] == ']' && ClosesAt(s, i + 1, depth - 1))
  }

  /** `s.index("]" * depth, i)`: the first index at or after `i` where `depth` closing brackets start, or -1. */
  function ClosingFrom(s: string, depth: nat, i: nat): (j: int)
    ensures j == -1 || (i <= j && j + depth <= |s|)
    decreases |s| - i
  {
    if i + depth > |s| then -1
    else if ClosesAt(s, i, depth) then i
    else ClosingFrom(s, depth, i + 1)
  }

  /** Where the run of `[` starting at `i` ends: the first index at or after `i` that is not `[`, or `|s|`. */
  function BracketsEnd(s: string, i: nat): (k: nat)
    requires i <= |s|
    ensures i <= k <= |s|
    ensures forall j :: i <= j < k ==> s[j] == '['
    ensures k < |s| ==> s[k] != '['
    decreases |s| - i
  {
    if i < |s| && s[i] == '[' then BracketsEnd(s, i + 1) else i
  }

  /** The text an array value contributes: its shape, a space, then its leaves, each space-separated. */
  function ArrayToken(items: seq<PyValue>): string {
    Join(Decimals(ArrayDimensions(List(items))), ' ') + " " + Join(Strs(Flatten(items)), ' ')
  }

  /** The assertion of parse_input: the shape has one entry per leading `[`, or is empty for one `[`. */
  predicate ShapeMatches(shape: seq<nat>, depth: nat) {
    |shape| == depth || (shape == [] && depth == 1)
  }

  /** The token a value produces and the index the outer loop continues at. */
  datatype Token = Token(text: string, next: nat)

  /**
    The value that starts at `start` (just past `=` and the character after it):
    an array when it starts with `[`, a quoted string, or a scalar up to the next `,`.
   */
  function ScanValue(s: string, start: nat, eval: Eval): (r: Result<Token>)
    ensures r.Ok? ==> start < r.value.next <= |s|
  {
    if start >= |s| then Err(IndexError)
    else
      var k := BracketsEnd(s, start);
      if k == |s| then Err(IndexError)
      else if k > start then ArrayValue(s, start, k - start, eval)
      else if s[start] == '"' then QuotedValue(s, start)
      else ScalarValue(s, start)
  }

  /** An array of bracket depth `depth`: the text up to the first `]` * depth, evaluated. */
  function ArrayValue(s: string, start: nat, depth: nat, eval: Eval): (r: Result<Token>)
    requires start <= |s| && depth >= 1
    ensures r.Ok? ==> start < r.value.next <= |s|
  {
    var j := ClosingFrom(s, depth, start);
    if j < 0 then Err(IndexError)
    else match eval(s[start..j] + Closing(depth))
      case None => Err(EvalError)
      case Some(items) =>
        if !ShapeMatches(ArrayDimensions(List(items)), depth) then Err(AssertionError)
        else Ok(Token(ArrayToken(items), j + 1))
  }

  /** A quoted string: the text between the quote at `start` and the next quote. */
  function QuotedValue(s: string, start: nat): (r: Result<Token>)
    requires start < |s|
    ensures r.Ok? ==> start < r.value.next <= |s|
  {
    var q := FindChar(s, '"', start + 1);
    if q == |s| then Err(IndexError) else Ok(Token(s[start + 1..q], q + 1))
  }

  /** A scalar: the text from `start` up to the next `,`. */
  function ScalarValue(s: string, start: nat): (r: Result<Token>)
    requires start <= |s|
    ensures r.Ok? ==> start < r.value.next <= |s|
  {
    var c := FindChar(s, ',', start);
    if c == |s| then Err(IndexError) else Ok(Token(s[start..c], c + 1))
  }

  /** The outer loop of parse_input from `index`, with the tokens found so far. */
  function Scan(s: string, index: nat, acc: seq<string>, eval: Eval): Result<seq<string>>
    decreases |s| - index
  {
    if index >= |s| then Ok(acc)
    else if s[index] != '=' then Scan(s, index + 1, acc, eval)
    else match ScanValue(s, index + 2, eval)
      case Err(e) => Err(e)
      case Ok(t) => Scan(s, t.next, acc + [t.text], eval)
  }

  /** parse_input: the tokens of every `name = value` of the text, joined by single spaces. */
  function ParseInputSpec(inputData: string, eval: Eval): Result<string> {
    match Scan(inputData + ",", 0, [], eval)
    case Err(e) => Err(e)
    case Ok(tokens) => Ok(Join(tokens, ' '))
  }

  /** The index scanner of parse_input, loop for loop. */
  method ParseInput(inputData: string, eval: Eval) returns (r: Result<string>)
    ensures r == ParseInputSpec(inputData, eval)
  {
    var data := inputData + ",";
    var parsedResult: seq<string> := [];
    var index := 0;
    while index < |data|
      invariant index <= |data|
      invariant Scan(data, index, parsedResult, eval) == Scan(data, 0, [], eval)
      decreases |data| - index
    {
      if data[index] != '=' {
        index := index + 1;
        continue;
      }
      var start := index + 2;
      var token := ScanValueLoops(data, start, eval);
      if token.Err? {
        return Err(token.error);
      }
      parsedResult := parsedResult + [token.value.text];
      index := token.value.next;
    }
    r := Ok(Join(parsedResult, ' '));
  }

  /** The inner loops of parse_input for one value, including the final `index += 1`. */
  method ScanValueLoops(data: string, start: nat, eval: Eval) returns (r: Result<Token>)
    ensures r == ScanValue(data, start, eval)
  {
    if start >= |data| {
      return Err(IndexError);  // the first `input_data[index]` of the bracket loop
    }
    var index := start;
    var depth := 0;
    while index < |data| && data[index] == '['
      invariant start <= index <= |data| && depth == index - start
      invariant forall j :: start <= j < index ==> data[j] == '['
      decreases |data| - index
    {
      index := index + 1;
      depth := depth + 1;
    }
    if index >= |data| {
      return Err(IndexError);
    }
    assert index == BracketsEnd(data, start);
    if depth > 0 {
      r := ScanArray(data, start, depth, eval);
    } else if data[index] == '"' {
      r := ScanQuoted(data, start);
    } else {
      r := ScanScalar(data, start);
    }
  }

  /** `index -= depth`, then collect characters until `]` * depth starts. */
  method ScanArray(data: string, start: nat, depth: nat, eval: Eval) returns (r: Result<Token>)
    requires start <= |data| && depth >= 1
    ensures r == ArrayValue(data, start, depth, eval)
  {
    var index, tempStr := CopyToClosing(data, start, depth);
    if index < 0 {
      return Err(IndexError);
    }
    tempStr := tempStr + Closing(depth);
    var nestedArray := eval(tempStr);
    if nestedArray.None? {
      return Err(EvalError);
    }
    var shape := ArrayDimensions(List(nestedArray.value));
    if !ShapeMatches(shape, depth) {
      return Err(AssertionError);
    }
    var flattened := Join(Decimals(shape), ' ') + " " + Join(Strs(Flatten(nestedArray.value)), ' ');
    r := Ok(Token(flattened, index + 1));
  }

  /**
    The copy loop of the array branch: characters are copied until `]` * depth
    starts; -1 stands for running off the end (the IndexError).
   */
  method CopyToClosing(data: string, start: nat, depth: nat) returns (index: int, tempStr: string)
    requires start <= |data| && depth >= 1
    ensures index == ClosingFrom(data, depth, start)
    ensures index >= 0 ==> tempStr == data[start..index]
  {
    index := start;
    tempStr := "";
    var closing := Closing(depth);
    while PySlice(data, index, index + depth) != closing
      invariant start <= index <= |data| && tempStr == data[start..index]
      invariant forall j :: start <= j < index ==> !OccursAt(data, closing, j)
      decreases |data| - index
    {
      if index >= |data| {
        ClosingMissing(data, depth, start);
        return -1, tempStr;
      }
      SliceIsClosing(data, index, depth);
      tempStr := tempStr + [data[index]];
      index := index + 1;
    }
    SliceIsClosing(data, index, depth);
    ClosingFoundAt(data, depth, start, index);
  }

  /** Skip the opening quote, then collect characters until the closing one. */
  method ScanQuoted(data: string, start: nat) returns (r: Result<Token>)
    requires start < |data|
    ensures r == QuotedValue(data, start)
  {
    var index := start + 1;
    var tempStr := "";
    while index < |data| && data[index] != '"'
      invariant start + 1 <= index <= |data| && tempStr == data[start + 1..index]
      invariant forall j :: start + 1 <= j < index ==> data[j] != '"'
      decreases |data| - index
    {
      tempStr := tempStr + [data[index]];
      index := index + 1;
    }
    if index >= |data| {
      return Err(IndexError);
    }
    assert index == FindChar(data, '"', start + 1);
    r := Ok(Token(tempStr, index + 1));
  }

  /** Collect characters until the next `,`. */
  method ScanScalar(data: string, start: nat) returns (r: Result<Token>)
    requires start <= |data|
    ensures r == ScalarValue(data, start)
  {
    var index := start;
    var tempStr := "";
    while index < |data| && data[index] != ','
      invariant start <= index <= |data| && tempStr == data[start..index]
      invariant forall j :: start <= j < index ==> data[j] != ','
      decreases |data| - index
    {
      tempStr := tempStr + [data[index]];
      index := index + 1;
    }
    if index >= |data| {
      return Err(IndexError);
    }
    assert index == FindChar(data, ',', start);
    r := Ok(Token(tempStr, index + 1));
  }

  // ---------------------------------------------------------------------------
  // What parse_input makes of well-formed example text

  /** A value as LeetCode writes it in an example: a bare scalar, a quoted string, or an integer array. */
  datatype ArgValue = Scalar(text: string) | Quoted(text: string) | IntArray(elems: seq<int>)

  /** One `name = value` of an example input. */
  datatype Arg = Arg(name: string, value: ArgValue)

  function IntTexts(elems: seq<int>): (r: seq<string>)
    ensures |r| == |elems| && forall k :: 0 <= k < |r| ==> r[k] == IntToDecimal(elems[k])
  {
    if elems == [] then []
    else
      var rest := IntTexts(elems[1..]);
      assert forall k :: 1 <= k < |elems| ==> rest[k - 1] == IntToDecimal(elems[k]);
      [IntToDecimal(elems[0])] + rest
  }

  function Ints(elems: seq<int>): (r: seq<PyValue>)
    ensures |r| == |elems| && forall k :: 0 <= k < |r| ==> r[k] == Int(elems[k])
  {
    if elems == [] then []
    else
      var rest := Ints(elems[1..]);
      assert forall k :: 1 <= k < |elems| ==> rest[k - 1] == Int(elems[k]);
      [Int(elems[0])] + rest
  }

  function RenderValue(v: ArgValue): string {
    match v
    case Scalar(t) => t
    case Quoted(t) => "\"" + t + "\""
    case IntArray(es) => "[" + Join(IntTexts(es), ',') + "]"
  }

  function RenderArg(a: Arg): string {
    a.name + " = " + RenderValue(a.value)
  }

  /** The example input: the arguments separated by `, `. */
  function RenderArgs(args: seq<Arg>): string
    requires args != []
  {
    if |args| == 1 then RenderArg(args[0]) else RenderArg(args[0]) + ", " + RenderArgs(args[1..])
  }

  /** The token a value should produce: the text of a scalar or string, the length and elements of an array. */
  function TokenOf(v: ArgValue): string {
    match v
    case Scalar(t) => t
    case Quoted(t) => t
    case IntArray(es) =>
      (if es == [] then "" else NatToDecimal(|es|)) + " " + Join(IntTexts(es), ' ')
  }

  function Tokens(args: seq<Arg>): (r: seq<string>)
    ensures |r| == |args| && forall k :: 0 <= k < |r| ==> r[k] == TokenOf(args[k].value)
  {
    if args == [] then []
    else
      var rest := Tokens(args[1..]);
      assert forall k :: 1 <= k < |args| ==> rest[k - 1] == TokenOf(args[k].value);
      [TokenOf(args[0].value)] + rest
  }

  /** Names without `=`; scalars without `,` that do not start like a string or an array; strings without quotes. */
  predicate WellFormedValue(v: ArgValue) {
    match v
    case Scalar(t) => ',' !in t && (t == [] || (t[0] != '[' && t[0] != '"'))
    case Quoted(t) => '"' !in t
    case IntArray(_) => true
  }

  predicate WellFormed(args: seq<Arg>) {
    forall k :: 0 <= k < |args| ==> '=' !in args[k].name && WellFormedValue(args[k].value)
  }

  /** `literal_eval` reads each rendered array back as its integers. */
  predicate EvalsArrays(args: seq<Arg>, eval: Eval) {
    forall k :: 0 <= k < |args| ==> args[k].value.IntArray? ==>
      eval(RenderValue(args[k].value)) == Some(Ints(args[k].value.elems))
  }

  /** No `=` among `s[i..j]`, stated position by position. */
  predicate NoEquals(s: string, i: nat, j: nat)
    decreases j - i
  {
    i >= j || (i < |s| && s[i] != '=' && NoEquals(s, i + 1, j))
  }

  lemma {:induction false} NoEqualsOf(s: string, i: nat, j: nat)
    requires i <= j <= |s|
    requires forall k :: i <= k < j ==> s[k] != '='
    ensures NoEquals(s, i, j)
    decreases j - i
  {
    if i < j {
      NoEqualsOf(s, i + 1, j);
    }
  }

  /** Characters that are not `=` are skipped one by one. */
  lemma {:induction false} SkipToEquals(s: string, i: nat, j: nat, acc: seq<string>, eval: Eval)
    requires i <= j <= |s|
    requires NoEquals(s, i, j)
    ensures Scan(s, i, acc, eval) == Scan(s, j, acc, eval)
    decreases j - i
  {
    if i < j {
      SkipToEquals(s, i + 1, j, acc, eval);
    }
  }

  /** The rendered integers contain neither brackets nor quotes nor commas. */
  lemma IntTextChars(i: int)
    ensures ']' !in IntToDecimal(i) && '[' !in IntToDecimal(i) && ',' !in IntToDecimal(i)
  {
    var d := NatToDecimal(if i >= 0 then i else -i);
    assert forall k :: 0 <= k < |d| ==> IsDigit(d[k]);
  }

  lemma {:induction false} JoinedIntsNoBracket(elems: seq<int>)
    ensures ']' !in Join(IntTexts(elems), ',')
    decreases |elems|
  {
    if |elems| == 1 {
      IntTextChars(elems[0]);
    } else if |elems| > 1 {
      IntTextChars(elems[0]);
      JoinedIntsNoBracket(elems[1..]);
      assert IntTexts(elems)[1..] == IntTexts(elems[1..]);
    }
  }

  /** How a scalar is read: up to the `,` that follows it. */
  lemma ScalarToken(s: string, start: nat, t: string)
    requires start + |t| < |s| && s[start..start + |t|] == t && s[start + |t|] == ','
    requires ',' !in t
    ensures ScalarValue(s, start) == Ok(Token(t, start + |t| + 1))
  {
    forall j | start <= j < start + |t|
      ensures s[j] != ','
    {
      assert s[j] == t[j - start];
    }
  }

  /** How a quoted string is read: up to the closing quote. */
  lemma QuotedToken(s: string, start: nat, t: string)
    requires start + |t| + 2 <= |s| && s[start..start + |t| + 2] == "\"" + t + "\""
    requires '"' !in t
    ensures QuotedValue(s, start) == Ok(Token(t, start + |t| + 2))
  {
    var w := "\"" + t + "\"";
    assert s[start + |t| + 1] == w[|t| + 1] == '"';
    forall j | start + 1 <= j < start + |t| + 1
      ensures s[j] != '"'
    {
      assert s[j] == w[j - start] == t[j - start - 1];
    }
    assert s[start + 1..start + |t| + 1] == t by {
      forall k | 0 <= k < |t|
        ensures s[start + 1 + k] == t[k]
      {
        assert s[start + 1 + k] == w[1 + k];
      }
    }
  }

  /** How a one-dimensional integer array is read: its length, a space, its elements. */
  lemma IntArrayToken(s: string, start: nat, es: seq<int>, eval: Eval)
    requires var w := RenderValue(IntArray(es)); start + |w| <= |s| && s[start..start + |w|] == w
    requires eval(RenderValue(IntArray(es))) == Some(Ints(es))
    ensures ArrayValue(s, start, 1, eval) == Ok(Token(TokenOf(IntArray(es)), start + |RenderValue(IntArray(es))|))
  {
    var w := RenderValue(IntArray(es));
    IntArrayClose(s, start, es);
    ArrayTokenOfInts(es);
    FlatArrayValueAt(s, start, w, Ints(es), TokenOf(IntArray(es)), eval);
  }

  /** A flat array literal `w` laid out from `start`, whose first `]` is its last character. */
  lemma FlatArrayValueAt(s: string, start: nat, w: string, items: seq<PyValue>, text: string, eval: Eval)
    requires |w| >= 2 && start + |w| <= |s|
    requires ClosingFrom(s, 1, start) == start + |w| - 1 && s[start..start + |w| - 1] + Closing(1) == w
    requires eval(w) == Some(items)
    requires ShapeMatches(ArrayDimensions(List(items)), 1) && ArrayToken(items) == text
    ensures ArrayValue(s, start, 1, eval) == Ok(Token(text, start + |w|))
  {
    ArrayValueAt(s, start, 1, start + |w| - 1, items, text, eval);
  }

  /** An array whose closing run is first found at `j` and whose text evaluates and passes the assert. */
  lemma ArrayValueAt(s: string, start: nat, depth: nat, j: nat, items: seq<PyValue>, text: string, eval: Eval)
    requires start <= j <= |s| && depth >= 1
    requires ClosingFrom(s, depth, start) == j
    requires eval(s[start..j] + Closing(depth)) == Some(items)
    requires ShapeMatches(ArrayDimensions(List(items)), depth)
    requires ArrayToken(items) == text
    ensures ArrayValue(s, start, depth, eval) == Ok(Token(text, j + 1))
  {
  }

  /** The first `]` after an integer list literal's `[` is its own closing bracket. */
  lemma IntArrayClose(s: string, start: nat, es: seq<int>)
    requires var w := RenderValue(IntArray(es)); start + |w| <= |s| && s[start..start + |w|] == w
    ensures var w := RenderValue(IntArray(es));
      && |w| >= 2
      && ClosingFrom(s, 1, start) == start + |w| - 1
      && s[start..start + |w| - 1] + Closing(1) == w
  {
    var w := RenderValue(IntArray(es));
    var inner := Join(IntTexts(es), ',');
    assert w == "[" + inner + "]";
    var j := start + |w| - 1;
    JoinedIntsNoBracket(es);
    assert ClosesAt(s, j, 1) by {
      assert s[j] == w[|w| - 1] == ']';
    }
    forall m | start <= m < j
      ensures !ClosesAt(s, m, 1)
    {
      assert s[m] == w[m - start];
      if m > start {
        assert w[m - start] == inner[m - start - 1];
      }
    }
    assert s[start..j] + Closing(1) == w by {
      assert s[start..j] == w[..|w| - 1];
      assert w[..|w| - 1] + "]" == w;
    }
    ClosingFromFirst(s, 1, start, j);
  }

  /** The search stops at the first closing run at or after `i`. */
  lemma {:induction false} ClosingFromFirst(s: string, depth: nat, i: nat, j: nat)
    requires i <= j && j + depth <= |s| && ClosesAt(s, j, depth)
    requires forall m :: i <= m < j ==> !ClosesAt(s, m, depth)
    ensures ClosingFrom(s, depth, i) == j
    decreases j - i
  {
    if i < j {
      ClosingFromFirst(s, depth, i + 1, j);
    }
  }

  /** `depth` closing brackets start at `i` exactly when the slice there is `]` * depth. */
  lemma {:induction false} ClosesAtRun(s: string, i: nat, depth: nat)
    requires i + depth <= |s|
    ensures ClosesAt(s, i, depth) <==> s[i..i + depth] == Closing(depth)
    decreases depth
  {
    if depth > 0 {
      ClosesAtRun(s, i + 1, depth - 1);
      assert s[i..i + depth] == [s[i]] + s[i + 1..i + depth];
      if s[i..i + depth] == Closing(depth) {
        assert s[i] == Closing(depth)[0];
        assert s[i + 1..i + depth] == s[i..i + depth][1..];
      }
    }
  }

  /** Python's `s[lo:hi]` for `lo <= len(s)`: the end is clamped to the length, and a slice that would run backwards is empty. */
  function PySlice(s: string, lo: nat, hi: nat): (r: string)
    requires lo <= |s|
    ensures |r| <= |s| - lo && (lo <= hi <= |s| ==> |r| == hi - lo) && (hi > |s| ==> |r| == |s| - lo)
    ensures forall k :: 0 <= k < |r| ==> r[k] == s[lo + k]
  {
    var end := if hi <= |s| then hi else |s|;
    if end < lo then [] else s[lo..end]
  }

  /** The window `s[i:i+depth]` is the closing run exactly when the run occurs at `i`. */
  lemma SliceIsClosing(s: string, i: nat, depth: nat)
    requires i <= |s|
    ensures PySlice(s, i, i + depth) == Closing(depth) <==> OccursAt(s, Closing(depth), i)
  {
    if i + depth > |s| {
      assert |PySlice(s, i, i + depth)| < depth;
    }
  }

  /** No closing run from `i` on: ClosingFrom finds none. */
  lemma ClosingMissing(s: string, depth: nat, i: nat)
    requires depth >= 1 && i <= |s|
    requires forall j :: i <= j < |s| ==> !OccursAt(s, Closing(depth), j)
    ensures ClosingFrom(s, depth, i) == -1
  {
    ClosingFromIsIndex(s, depth, i);
  }

  /** The first closing run from `i` is at `index`: ClosingFrom finds it there. */
  lemma ClosingFoundAt(s: string, depth: nat, i: nat, index: nat)
    requires depth >= 1 && i <= index
    requires OccursAt(s, Closing(depth), index)
    requires forall j :: i <= j < index ==> !OccursAt(s, Closing(depth), j)
    ensures ClosingFrom(s, depth, i) == index
  {
    ClosingFromIsIndex(s, depth, i);
  }

  /** The closing search is `str.index` of `]` * depth. */
  lemma {:induction false} ClosingFromIsIndex(s: string, depth: nat, i: nat)
    requires depth >= 1
    ensures ClosingFrom(s, depth, i) == IndexFrom(s, Closing(depth), i)
    decreases |s| - i
  {
    if i + depth <= |s| {
      ClosesAtRun(s, i, depth);
      if !ClosesAt(s, i, depth) {
        ClosingFromIsIndex(s, depth, i + 1);
      }
    }
  }

  /** The token of a flat integer list. */
  lemma ArrayTokenOfInts(es: seq<int>)
    ensures ShapeMatches(ArrayDimensions(List(Ints(es))), 1)
    ensures ArrayToken(Ints(es)) == TokenOf(IntArray(es))
  {
    var items := Ints(es);
    FlattenFlat(items);
    assert Strs(items) == IntTexts(es);
    if es != [] {
      assert ArrayDimensions(items[0]) == [];
      assert ArrayDimensions(List(items)) == [|es|];
      assert Decimals([|es|]) == [NatToDecimal(|es|)];
    } else {
      assert Decimals([]) == [];
    }
  }

  /** A well-formed value followed by `,` yields its token; the scan resumes on or just past that `,`. */
  lemma ValueToken(s: string, start: nat, v: ArgValue, end: nat, eval: Eval)
    requires WellFormedValue(v)
    requires v.IntArray? ==> eval(RenderValue(v)) == Some(Ints(v.elems))
    requires end == start + |RenderValue(v)|
    requires end < |s| && s[start..end] == RenderValue(v) && s[end] == ','
    ensures ScanValue(s, start, eval).Ok?
    ensures ScanValue(s, start, eval).value.text == TokenOf(v)
    ensures end <= ScanValue(s, start, eval).value.next <= end + 1
  {
    var w := RenderValue(v);
    match v
    case Scalar(t) =>
      assert s[start] != '[' && s[start] != '"' by {
        if t != [] { assert s[start] == w[0] == t[0]; }
      }
      assert BracketsEnd(s, start) == start;
      ScalarToken(s, start, t);
    case Quoted(t) =>
      assert s[start] == w[0] == '"';
      assert BracketsEnd(s, start) == start;
      QuotedToken(s, start, t);
    case IntArray(es) =>
      var inner := Join(IntTexts(es), ',');
      assert w == "[" + inner + "]";
      assert s[start] == w[0] == '[';
      assert s[start + 1] != '[' by {
        assert s[start + 1] == w[1];
        if es == [] {
          assert w[1] == ']';
        } else {
          IntTextChars(es[0]);
          JoinFirst(IntTexts(es), ',');
          assert w[1] == inner[0] == IntToDecimal(es[0])[0];
        }
      }
      assert BracketsEnd(s, start + 1) == start + 1;
      assert BracketsEnd(s, start) == start + 1;
      IntArrayToken(s, start, es, eval);
  }

  /**
    A rectangular array of `d` dimensions passes the assertion at depth `d`
    and emits its dimensions, then its `Product(dims)` leaves.
   */
  lemma RectangularToken(items: seq<PyValue>, dims: seq<nat>)
    requires HasShape(List(items), dims) && dims != []
    requires forall k :: 0 <= k < |dims| ==> dims[k] >= 1
    ensures ShapeMatches(ArrayDimensions(List(items)), |dims|)
    ensures ArrayToken(items) == Join(Decimals(dims), ' ') + " " + Join(Strs(Flatten(items)), ' ')
    ensures |Flatten(items)| == Product(dims)
  {
    ShapeDimensions(List(items), dims);
    ShapeLeaves(List(items), dims);
  }

  /** An empty array emits no shape and no elements: a lone space. */
  lemma EmptyArrayInput(eval: Eval)
    requires eval("[]") == Some([])
    ensures ParseInputSpec("nums = []", eval) == Ok(" ")
  {
    var args := [Arg("nums", IntArray([]))];
    assert RenderValue(IntArray([])) == "[]";
    assert RenderArgs(args) == "nums = []";
    ParseInputOfArgs(args, eval);
    assert IntTexts([]) == [];
    assert TokenOf(IntArray([])) == " ";
    assert Tokens(args) == [" "];
  }

  /** `[[]]` has dimensions `[1]` but depth 2, so the assertion of parse_input fails. */
  lemma EmptyRowAssertion(eval: Eval)
    requires eval("[[]]") == Some([List([])])
    ensures ParseInputSpec("grid = [[]]", eval) == Err(AssertionError)
  {
    var s := "grid = [[]]" + ",";
    assert forall k :: 0 <= k < 5 ==> s[k] != '=';
    NoEqualsOf(s, 0, 5);
    SkipToEquals(s, 0, 5, [], eval);
    assert BracketsEnd(s, 9) == 9;
    assert BracketsEnd(s, 7) == 9;
    assert ClosingFrom(s, 2, 7) == 9 by {
      assert ClosesAt(s, 9, 2);
      assert !ClosesAt(s, 7, 2) && !ClosesAt(s, 8, 2);
      ClosingFromFirst(s, 2, 7, 9);
    }
    assert s[7..9] + Closing(2) == "[[]]";
    assert ArrayDimensions(List([List([])])) == [1];
  }

  /** A join starts with its first part. */
  lemma JoinFirst(parts: seq<string>, sep: char)
    requires parts != [] && parts[0] != []
    ensures Join(parts, sep) != [] && Join(parts, sep)[0] == parts[0][0]
  {
  }

  /** From `p`, the first `=` is at `e`, then a space, then the text of `v`, then a `,` at `end`. */
  predicate ValueLaidOut(s: string, p: nat, e: nat, end: nat, v: ArgValue) {
    && p <= e < end < |s| && s[e] == '=' && s[end] == ','
    && NoEquals(s, p, e)
    && end == e + 2 + |RenderValue(v)| && MatchesAt(s, e + 2, RenderValue(v))
  }

  /** `w` is spelled out in `s` from `i` on. */
  predicate MatchesAt(s: string, i: nat, w: string)
    decreases |w|
  {
    w == [] || (i < |s| && s[i] == w[0] && MatchesAt(s, i + 1, w[1..]))
  }

  /** Spelling out is the same as the slice being `w`. */
  lemma {:induction false} MatchesAtSlice(s: string, i: nat, w: string)
    requires i + |w| <= |s|
    ensures MatchesAt(s, i, w) <==> s[i..i + |w|] == w
    decreases |w|
  {
    if w != [] {
      MatchesAtSlice(s, i + 1, w[1..]);
      assert s[i..i + |w|] == [s[i]] + s[i + 1..i + |w|];
      assert w == [w[0]] + w[1..];
    }
  }

  /** Past the first `=` at `e` and a well-formed value before the `,` at `end`: that value's token is taken. */
  lemma ValueThrough(s: string, p: nat, e: nat, end: nat, v: ArgValue, acc: seq<string>, eval: Eval)
    requires WellFormedValue(v)
    requires v.IntArray? ==> eval(RenderValue(v)) == Some(Ints(v.elems))
    requires ValueLaidOut(s, p, e, end, v)
    ensures Scan(s, p, acc, eval) == Scan(s, end + 1, acc + [TokenOf(v)], eval)
  {
    ValueTokenAt(s, e + 2, v, end, eval);
    ScanThrough(s, p, e, end, ScanValue(s, e + 2, eval).value, acc, eval);
  }

  /** ValueToken, for a value spelled out from `start`. */
  lemma ValueTokenAt(s: string, start: nat, v: ArgValue, end: nat, eval: Eval)
    requires WellFormedValue(v)
    requires v.IntArray? ==> eval(RenderValue(v)) == Some(Ints(v.elems))
    requires end == start + |RenderValue(v)| && end < |s| && s[end] == ','
    requires MatchesAt(s, start, RenderValue(v))
    ensures ScanValue(s, start, eval).Ok?
    ensures ScanValue(s, start, eval).value.text == TokenOf(v)
    ensures end <= ScanValue(s, start, eval).value.next <= end + 1
  {
    MatchesAtSlice(s, start, RenderValue(v));
    ValueToken(s, start, v, end, eval);
  }

  /**
    From `p`, past the first `=` at `e`, past its value `t`: the scan has
    taken `t`'s text once it reaches the `,` at `end`.
   */
  lemma ScanThrough(s: string, p: nat, e: nat, end: nat, t: Token, acc: seq<string>, eval: Eval)
    requires p <= e < end < |s| && s[e] == '=' && s[end] == ','
    requires NoEquals(s, p, e)
    requires ScanValue(s, e + 2, eval) == Ok(t) && end <= t.next <= end + 1
    ensures Scan(s, p, acc, eval) == Scan(s, end + 1, acc + [t.text], eval)
  {
    SkipToEquals(s, p, e, acc, eval);
    TakeAtEquals(s, e, t, acc, eval);
    SkipComma(s, t.next, end, acc + [t.text], eval);
  }

  /** A scan that resumes on a `,` goes on just past it. */
  lemma SkipComma(s: string, i: nat, end: nat, acc: seq<string>, eval: Eval)
    requires end < |s| && s[end] == ',' && end <= i <= end + 1
    ensures Scan(s, i, acc, eval) == Scan(s, end + 1, acc, eval)
  {
  }

  /** At an `=` whose value scans to `t`, the scan takes `t`'s text and goes on at `t.next`. */
  lemma TakeAtEquals(s: string, e: nat, t: Token, acc: seq<string>, eval: Eval)
    requires e < |s| && s[e] == '=' && ScanValue(s, e + 2, eval) == Ok(t)
    ensures Scan(s, e, acc, eval) == Scan(s, t.next, acc + [t.text], eval)
  {
  }

  /** The arguments after the first are well formed too. */
  lemma RestWellFormed(args: seq<Arg>, eval: Eval)
    requires args != [] && WellFormed(args) && EvalsArrays(args, eval)
    ensures WellFormed(args[1..]) && EvalsArrays(args[1..], eval)
  {
    forall k | 0 <= k < |args| - 1
      ensures args[1..][k] == args[k + 1]
    {
    }
  }

  /** The scan's view of one `name = value` followed by `,` at `p`. */
  predicate ArgAt(s: string, p: nat, a: Arg) {
    ValueLaidOut(s, p, p + |a.name| + 1, p + |RenderArg(a)|, a.value)
  }

  /** The first rendered argument is where ArgAt says, and the others follow after `, `. */
  lemma ArgsAtStep(s: string, p: nat, args: seq<Arg>)
    requires args != [] && '=' !in args[0].name
    requires MatchesAt(s, p, RenderArgs(args) + ",") && |s| == p + |RenderArgs(args)| + 1
    ensures ArgAt(s, p, args[0])
    ensures |args| == 1 ==> p + |RenderArg(args[0])| + 1 == |s|
    ensures |args| > 1 ==> var end := p + |RenderArg(args[0])|;
      && end + 1 < |s| && s[end + 1] == ' '
      && MatchesAt(s, end + 2, RenderArgs(args[1..]) + ",") && |s| == end + 2 + |RenderArgs(args[1..])| + 1
  {
    FirstArgAt(s, p, args);
    if |args| > 1 {
      MatchesAtChar(s, p + |RenderArg(args[0])| + 1, ' ', RenderArgs(args[1..]) + ",");
    }
  }

  /** Where the rendered arguments are spelled out from `p`, the first one is where ArgAt says; what follows its `,` is the rest. */
  lemma FirstArgAt(s: string, p: nat, args: seq<Arg>)
    requires args != [] && '=' !in args[0].name
    requires MatchesAt(s, p, RenderArgs(args) + ",")
    ensures ArgAt(s, p, args[0])
    ensures MatchesAt(s, p + |RenderArg(args[0])| + 1, if |args| == 1 then "" else " " + (RenderArgs(args[1..]) + ","))
  {
    var a := args[0];
    var rest := if |args| == 1 then "" else " " + (RenderArgs(args[1..]) + ",");
    var w := RenderValue(a.value);
    var end := p + |RenderArg(a)|;
    ArgsText(args);
    MatchesAtAppend(s, p, RenderArg(a) + ",", rest);
    MatchesAtAppend(s, p, RenderArg(a), ",");
    MatchesAtAppend(s, p, a.name + " = ", w);
    ArgHead(s, p, a.name);
    MatchesAtChar(s, end, ',', "");
  }

  /** Where `name = ` is spelled out, the scan finds no `=` before the one after the name. */
  lemma ArgHead(s: string, p: nat, name: string)
    requires '=' !in name && MatchesAt(s, p, name + " = ")
    ensures NoEquals(s, p, p + |name| + 1)
    ensures p + |name| + 1 < |s| && s[p + |name| + 1] == '='
  {
    assert name + " = " == (name + " ") + ['='] + " ";
    MatchesAtAppend(s, p, (name + " ") + ['='], " ");
    MatchesAtAppend(s, p, name + " ", ['=']);
    MatchesAtChar(s, p + |name| + 1, '=', "");
    assert '=' !in name + " ";
    NoEqualsOfMatches(s, p, name + " ");
  }

  /** The rendered arguments with the appended `,`: the first argument, its `,`, then a space and the others. */
  lemma ArgsText(args: seq<Arg>)
    requires args != []
    ensures var rest := if |args| == 1 then "" else " " + (RenderArgs(args[1..]) + ",");
      RenderArgs(args) + "," == RenderArg(args[0]) + "," + rest
  {
    var r := RenderArg(args[0]);
    if |args| == 1 {
      assert r + "," + "" == r + ",";
    } else {
      CommaSpace(r, RenderArgs(args[1..]));
    }
  }

  /** `, ` between two texts is a `,` then a space. */
  lemma CommaSpace(r: string, others: string)
    ensures r + ", " + others + "," == r + "," + (" " + (others + ","))
  {
  }

  /** From the rendered arguments, followed by the appended `,`, spelled out from `p` to the end of `s`, the scan takes one token per argument, in order, and ends. */
  lemma {:induction false} ScanArgsAt(s: string, p: nat, args: seq<Arg>, acc: seq<string>, eval: Eval)
    requires args != [] && WellFormed(args) && EvalsArrays(args, eval)
    requires MatchesAt(s, p, RenderArgs(args) + ",") && |s| == p + |RenderArgs(args)| + 1
    ensures Scan(s, p, acc, eval) == Ok(acc + Tokens(args))
    decreases |args|
  {
    var end := p + |RenderArg(args[0])|;
    ArgsAtStep(s, p, args);
    FirstArgWellFormed(args, eval);
    ArgThrough(s, p, args[0], acc, eval);
    if |args| > 1 {
      RestWellFormed(args, eval);
      ScanArgsAt(s, end + 2, args[1..], acc + [TokenOf(args[0].value)], eval);
    }
    ScanArgsLink(s, p, end, args, acc, eval);
  }

  /** The scan through a laid-out argument takes its token and resumes after its `,`. */
  lemma ArgThrough(s: string, p: nat, a: Arg, acc: seq<string>, eval: Eval)
    requires WellFormedValue(a.value)
    requires a.value.IntArray? ==> eval(RenderValue(a.value)) == Some(Ints(a.value.elems))
    requires ArgAt(s, p, a)
    ensures Scan(s, p, acc, eval) == Scan(s, p + |RenderArg(a)| + 1, acc + [TokenOf(a.value)], eval)
  {
    ValueThrough(s, p, p + |a.name| + 1, p + |RenderArg(a)|, a.value, acc, eval);
  }

  /** The first argument of well-formed arguments is well formed, and read back by `eval` when it is an array. */
  lemma FirstArgWellFormed(args: seq<Arg>, eval: Eval)
    requires args != [] && WellFormed(args) && EvalsArrays(args, eval)
    ensures WellFormedValue(args[0].value)
    ensures args[0].value.IntArray? ==> eval(RenderValue(args[0].value)) == Some(Ints(args[0].value.elems))
  {
  }

  /** The scan through the first argument, then past `, `, then through the rest, gives all the tokens. */
  lemma ScanArgsLink(s: string, p: nat, end: nat, args: seq<Arg>, acc: seq<string>, eval: Eval)
    requires args != []
    requires Scan(s, p, acc, eval) == Scan(s, end + 1, acc + [TokenOf(args[0].value)], eval)
    requires |args| == 1 ==> end + 1 == |s|
    requires |args| > 1 ==> end + 1 < |s| && s[end + 1] == ' '
    requires |args| > 1 ==>
      Scan(s, end + 2, acc + [TokenOf(args[0].value)], eval) == Ok(acc + [TokenOf(args[0].value)] + Tokens(args[1..]))
    ensures Scan(s, p, acc, eval) == Ok(acc + Tokens(args))
  {
    var acc' := acc + [TokenOf(args[0].value)];
    if |args| == 1 {
      assert Tokens(args) == [TokenOf(args[0].value)];
    } else {
      SkipOther(s, end + 1, acc', eval);
      TokensCons(acc, args);
    }
  }

  /** Any character but `=` is passed over. */
  lemma SkipOther(s: string, i: nat, acc: seq<string>, eval: Eval)
    requires i < |s| && s[i] != '='
    ensures Scan(s, i, acc, eval) == Scan(s, i + 1, acc, eval)
  {
  }

  lemma TokensCons(acc: seq<string>, args: seq<Arg>)
    requires args != []
    ensures acc + [TokenOf(args[0].value)] + Tokens(args[1..]) == acc + Tokens(args)
  {
  }

  /** Spelling out a concatenation is spelling out each part, one after the other. */
  lemma {:induction false} MatchesAtAppend(s: string, i: nat, u: string, v: string)
    ensures MatchesAt(s, i, u + v) <==> MatchesAt(s, i, u) && MatchesAt(s, i + |u|, v)
    decreases |u|
  {
    if u == [] {
      assert u + v == v;
    } else {
      assert (u + v)[1..] == u[1..] + v;
      MatchesAtAppend(s, i + 1, u[1..], v);
    }
  }

  /** Spelling out `c` followed by `v`. */
  lemma MatchesAtChar(s: string, i: nat, c: char, v: string)
    ensures MatchesAt(s, i, [c] + v) <==> i < |s| && s[i] == c && MatchesAt(s, i + 1, v)
  {
    assert ([c] + v)[1..] == v;
  }

  /** Where a text without `=` is spelled out, the scan finds no `=`. */
  lemma {:induction false} NoEqualsOfMatches(s: string, i: nat, u: string)
    requires MatchesAt(s, i, u) && '=' !in u
    ensures NoEquals(s, i, i + |u|)
    decreases |u|
  {
    if u != [] {
      assert u == [u[0]] + u[1..];
      NoEqualsOfMatches(s, i + 1, u[1..]);
    }
  }

  /**
    parse_input on an example input emits one token per argument, in order,
    separated by single spaces: the text of a scalar or of a quoted string,
    and the length then the elements of an integer array.
   */
  lemma ParseInputOfArgs(args: seq<Arg>, eval: Eval)
    requires args != [] && WellFormed(args) && EvalsArrays(args, eval)
    ensures ParseInputSpec(RenderArgs(args), eval) == Ok(Join(Tokens(args), ' '))
  {
    var s := RenderArgs(args) + ",";
    MatchesAtSlice(s, 0, s);
    assert s[0..|s|] == s;
    ScanArgsAt(s, 0, args, [], eval);
    assert [] + Tokens(args) == Tokens(args);
  }

  // ---------------------------------------------------------------------------
  // parse_test_cases

  /** `map(str, t)` over a string: its characters, one string each. */
  function CharStrs(t: string): (r: seq<string>)
    ensures |r| == |t| && forall k :: 0 <= k < |r| ==> r[k] == [t[k]]
  {
    if t == [] then [] else [[t[0]]] + CharStrs(t[1..])
  }

  /** `" ".join(map(str, row))` for one row of a multi-dimensional output. */
  function FormatRow(row: PyValue): (r: Result<string>)
    ensures r.Err? <==> row.Int?
    ensures r.Err? ==> r.error == TypeError
    ensures row.List? ==> r == Ok(Join(Strs(row.items), ' '))
    ensures row.Str? ==> r == Ok(Join(CharStrs(row.s), ' '))
  {
    match row
    case Int(_) => Err(TypeError)
    case Str(t) => Ok(Join(CharStrs(t), ' '))
    case List(xs) => Ok(Join(Strs(xs), ' '))
  }

  /** The rows formatted in order; the first row that cannot be iterated stops the join. */
  function FormatRows(rows: seq<PyValue>): (r: Result<seq<string>>)
    ensures r.Ok? <==> forall k :: 0 <= k < |rows| ==> !rows[k].Int?
    ensures r.Ok? ==> |r.value| == |rows|
    ensures r.Ok? ==> forall k :: 0 <= k < |rows| ==> FormatRow(rows[k]) == Ok(r.value[k])
    ensures r.Err? ==> r.error == TypeError
  {
    if rows == [] then Ok([])
    else match FormatRow(rows[0])
      case Err(e) => Err(e)
      case Ok(first) =>
        match FormatRows(rows[1..])
        case Err(e) => Err(e)
        case Ok(rest) => Ok([first] + rest)
  }

  /**
    The expected output of one example: a quoted string loses its first and
    last characters, an array is evaluated and printed row per line (several
    dimensions) or on one line, anything else is kept as it is.
   */
  function FormatOutput(seg: string, eval: Eval): (r: Result<string>)
  {
    if seg != [] && seg[0] == '"' then
      Ok(if |seg| >= 2 then seg[1..|seg| - 1] else [])
    else if seg != [] && seg[0] == '[' then
      match eval(seg)
      case None => Err(EvalError)
      case Some(items) =>
        if |ArrayDimensions(List(items))| > 1 then
          match FormatRows(items)
          case Err(e) => Err(e)
          case Ok(lines) => Ok(Join(lines, '\n'))
        else Ok(Join(Strs(items), ' '))
    else Ok(seg)
  }

  /** A quoted output comes back without its quotes. */
  lemma QuotedOutput(t: string, eval: Eval)
    ensures FormatOutput("\"" + t + "\"", eval) == Ok(t)
  {
    var seg := "\"" + t + "\"";
    assert seg[1..|seg| - 1] == t;
  }

  /** An output that is neither quoted nor an array passes through unchanged. */
  lemma PlainOutput(seg: string, eval: Eval)
    requires seg == [] || (seg[0] != '"' && seg[0] != '[')
    ensures FormatOutput(seg, eval) == Ok(seg)
  {
  }

  /** An output array that does not evaluate is an error. */
  lemma UnreadableOutput(seg: string, eval: Eval)
    requires seg != [] && seg[0] == '[' && eval(seg) == None
    ensures FormatOutput(seg, eval) == Err(EvalError)
  {
  }

  /** Integers are printed by `str` as their decimal text. */
  lemma StrsOfInts(es: seq<int>)
    ensures Strs(Ints(es)) == IntTexts(es)
  {
    var a, b := Strs(Ints(es)), IntTexts(es);
    assert forall k :: 0 <= k < |es| ==> a[k] == b[k] by {
      forall k | 0 <= k < |es|
        ensures a[k] == b[k]
      {
        assert Ints(es)[k] == Int(es[k]);
      }
    }
  }

  /** A one-dimensional integer array is printed as its elements separated by spaces. */
  lemma IntListOutput(es: seq<int>, eval: Eval)
    requires eval(RenderValue(IntArray(es))) == Some(Ints(es))
    ensures FormatOutput(RenderValue(IntArray(es)), eval) == Ok(Join(IntTexts(es), ' '))
  {
    var items := Ints(es);
    if items != [] {
      assert items[0] == Int(es[0]);
      assert ArrayDimensions(items[0]) == [];
    }
    assert |ArrayDimensions(List(items))| <= 1;
    StrsOfInts(es);
  }

  /** The integer rows of a grid as values. */
  function IntRows(rows: seq<seq<int>>): (r: seq<PyValue>)
    ensures |r| == |rows| && forall k :: 0 <= k < |r| ==> r[k] == List(Ints(rows[k]))
  {
    if rows == [] then [] else [List(Ints(rows[0]))] + IntRows(rows[1..])
  }

  /** Each row of a grid, its elements separated by spaces. */
  function RowTexts(rows: seq<seq<int>>): (r: seq<string>)
    ensures |r| == |rows| && forall k :: 0 <= k < |r| ==> r[k] == Join(IntTexts(rows[k]), ' ')
  {
    if rows == [] then []
    else
      var rest := RowTexts(rows[1..]);
      assert forall k :: 1 <= k < |rows| ==> rest[k - 1] == Join(IntTexts(rows[k]), ' ');
      [Join(IntTexts(rows[0]), ' ')] + rest
  }

  /** A grid whose first row is not empty is printed one row per line. */
  lemma GridOutput(seg: string, rows: seq<seq<int>>, eval: Eval)
    requires seg != [] && seg[0] == '[' && eval(seg) == Some(IntRows(rows))
    requires rows != [] && rows[0] != []
    ensures FormatOutput(seg, eval) == Ok(Join(RowTexts(rows), '\n'))
  {
    var items := IntRows(rows);
    assert items[0] == List(Ints(rows[0]));
    assert |ArrayDimensions(List(items))| > 1 by {
      assert ArrayDimensions(items[0]) != [];
    }
    var r := FormatRows(items);
    assert r.Ok? by {
      assert forall k :: 0 <= k < |items| ==> items[k].List?;
    }
    assert r.value == RowTexts(rows) by {
      forall k | 0 <= k < |rows|
        ensures r.value[k] == RowTexts(rows)[k]
      {
        assert FormatRow(items[k]) == Ok(r.value[k]);
        StrsOfInts(rows[k]);
      }
    }
  }

  /** A grid whose first row is empty counts as one-dimensional: each row is printed by `str`. */
  lemma EmptyFirstRowOutput(eval: Eval)
    requires eval("[[],[1]]") == Some([List([]), List([Int(1)])])
    ensures FormatOutput("[[],[1]]", eval) == Ok("[] [1]")
  {
    var items := [List([]), List([Int(1)])];
    assert ArrayDimensions(List(items)) == [2];
    assert Repr(Int(1)) == "1";
    assert ReprItems([Int(1)]) == "1";
    assert PyStr(items[0]) == "[]" && PyStr(items[1]) == "[1]";
    assert items[1..] == [List([Int(1)])];
    assert Strs(items[1..]) == ["[1]"];
    assert Strs(items) == ["[]", "[1]"];
    assert Join(["[]", "[1]"], ' ') == "[] [1]";
  }

  /** In several dimensions a string row is printed character by character, and an integer row is a TypeError. */
  lemma MixedRowsOutput(eval: Eval)
    requires eval("[[1],\"ab\"]") == Some([List([Int(1)]), Str("ab")])
    requires eval("[[1],2]") == Some([List([Int(1)]), Int(2)])
    ensures FormatOutput("[[1],\"ab\"]", eval) == Ok("1\na b")
    ensures FormatOutput("[[1],2]", eval) == Err(TypeError)
  {
    assert ArrayDimensions(List([Int(1)])) == [1];
    assert PyStr(Int(1)) == "1";
    assert Strs([Int(1)]) == ["1"];
    assert CharStrs("ab") == ["a", "b"] by {
      assert "ab"[1..] == "b";
    }
    assert Join(["a", "b"], ' ') == "a b";
    assert FormatRow(Str("ab")) == Ok("a b");
    assert FormatRow(List([Int(1)])) == Ok("1");
    assert ArrayDimensions(List([List([Int(1)]), Str("ab")])) == [2, 1];
    FormatRowsCons(Str("ab"), []);
    assert [Str("ab")] + [] == [Str("ab")];
    assert FormatRows([]) == Ok([]);
    assert ["a b"] + [] == ["a b"];
    FormatRowsCons(List([Int(1)]), [Str("ab")]);
    assert [List([Int(1)])] + [Str("ab")] == [List([Int(1)]), Str("ab")];
    assert ["1"] + ["a b"] == ["1", "a b"];
    assert FormatRows([List([Int(1)]), Str("ab")]) == Ok(["1", "a b"]);
    var seg := "[[1],\"ab\"]";
    assert seg[0] == '[';
    assert Join(["1", "a b"], '\n') == "1\na b";
    var bad := [List([Int(1)]), Int(2)];
    assert bad[1..] == [Int(2)];
  }

  lemma FormatRowsCons(x: PyValue, rest: seq<PyValue>)
    requires FormatRow(x).Ok? && FormatRows(rest).Ok?
    ensures FormatRows([x] + rest) == Ok([FormatRow(x).value] + FormatRows(rest).value)
  {
    assert ([x] + rest)[1..] == rest;
  }

  /** The input and the expected output of one example. */
  datatype Case = Case(input: string, output: string)

  /**
    One example block, already reduced to its text: the first line is the
    input, the second line minus its first character the output. A block
    with a single line is an IndexError; an output that cannot be
    formatted fails before the input is parsed.
   */
  function ExampleCase(text: string, eval: Eval): (r: Result<Case>)
    ensures |Split(text, '\n')| < 2 ==> r == Err(IndexError)
  {
    var lines := Split(text, '\n');
    if |lines| < 2 then Err(IndexError)
    else
      var seg := if lines[1] == [] then [] else lines[1][1..];
      match FormatOutput(seg, eval)
      case Err(e) => Err(e)
      case Ok(output) =>
        match ParseInputSpec(lines[0], eval)
        case Err(e) => Err(e)
        case Ok(input) => Ok(Case(input, output))
  }

  /** A block of two lines without other line breaks splits into exactly those lines. */
  lemma TwoLines(input: string, output: string)
    requires '\n' !in input && '\n' !in output
    ensures Split(input + "\n" + output, '\n') == [input, output]
  {
    assert Join([input, output], '\n') == input + "\n" + output;
    SplitJoin([input, output], '\n');
  }

  /**
    A block `a = v, b = w, …` over the line ` "t"` becomes the case whose
    input is the space-joined tokens of the values and whose output is `t`.
   */
  lemma ExampleCaseOfArgs(args: seq<Arg>, t: string, eval: Eval)
    requires args != [] && WellFormed(args) && EvalsArrays(args, eval)
    requires '\n' !in RenderArgs(args) && '\n' !in t
    ensures ExampleCase(RenderArgs(args) + "\n" + (" \"" + t + "\""), eval)
         == Ok(Case(Join(Tokens(args), ' '), t))
  {
    var line := " \"" + t + "\"";
    assert '\n' !in line by {
      assert forall k :: 1 < k < |line| - 1 ==> line[k] == t[k - 2];
    }
    TwoLines(RenderArgs(args), line);
    assert line[1..] == "\"" + t + "\"";
    QuotedOutput(t, eval);
    ParseInputOfArgs(args, eval);
  }

  /**
    The output line is formatted before the input line is read: when the
    output fails, the block fails with that error, whatever the input is.
   */
  lemma ExampleCaseOutputFirst(input: string, output: string, eval: Eval)
    requires '\n' !in input && '\n' !in output
    requires output != [] && FormatOutput(output[1..], eval).Err?
    ensures ExampleCase(input + "\n" + output, eval) == Err(FormatOutput(output[1..], eval).error)
  {
    TwoLines(input, output);
  }

  /** With an output that formats, the block fails exactly when its input does, with the input's error. */
  lemma ExampleCaseInputError(input: string, output: string, eval: Eval)
    requires '\n' !in input && '\n' !in output
    requires output != [] && FormatOutput(output[1..], eval).Ok?
    ensures ExampleCase(input + "\n" + output, eval).Err? <==> ParseInputSpec(input, eval).Err?
    ensures ParseInputSpec(input, eval).Err? ==>
      ExampleCase(input + "\n" + output, eval) == Err(ParseInputSpec(input, eval).error)
    ensures ParseInputSpec(input, eval).Ok? ==>
      ExampleCase(input + "\n" + output, eval)
        == Ok(Case(ParseInputSpec(input, eval).value, FormatOutput(output[1..], eval).value))
  {
    TwoLines(input, output);
  }

  /** The inputs and the outputs collected from the example blocks. */
  datatype Cases = Cases(inputs: seq<string>, outputs: seq<string>)

  /**
    parse_test_cases: one input and one output per block, in block order,
    or the error of the first block that fails.
   */
  function TestCases(blocks: seq<string>, eval: Eval): (r: Result<Cases>)
    ensures r.Ok? ==> |r.value.inputs| == |blocks| && |r.value.outputs| == |blocks|
    ensures r.Ok? ==> forall k :: 0 <= k < |blocks| ==>
      ExampleCase(blocks[k], eval) == Ok(Case(r.value.inputs[k], r.value.outputs[k]))
    ensures r.Ok? <==> forall k :: 0 <= k < |blocks| ==> ExampleCase(blocks[k], eval).Ok?
  {
    if blocks == [] then Ok(Cases([], []))
    else
      var init := blocks[..|blocks| - 1];
      match TestCases(init, eval)
      case Err(e) => Err(e)
      case Ok(c) =>
        match ExampleCase(blocks[|blocks| - 1], eval)
        case Err(e) => Err(e)
        case Ok(p) => Ok(Cases(c.inputs + [p.input], c.outputs + [p.output]))
  }

  /** The loop of parse_test_cases over the example blocks. */
  method ParseTestCases(blocks: seq<string>, eval: Eval) returns (r: Result<Cases>)
    ensures r == TestCases(blocks, eval)
  {
    var inputs: seq<string> := [];
    var outputs: seq<string> := [];
    var i := 0;
    while i < |blocks|
      invariant 0 <= i <= |blocks|
      invariant TestCases(blocks[..i], eval) == Ok(Cases(inputs, outputs))
    {
      assert blocks[..i + 1][..i] == blocks[..i];
      var c := ParseBlock(blocks[i], eval);
      if c.Err? {
        TestCasesAbort(blocks, i + 1, eval);
        return Err(c.error);
      }
      outputs := outputs + [c.value.output];
      inputs := inputs + [c.value.input];
      i := i + 1;
    }
    assert blocks[..i] == blocks;
    return Ok(Cases(inputs, outputs));
  }

  /** The body of the loop of parse_test_cases for one block: its output line, then its input line. */
  method ParseBlock(text: string, eval: Eval) returns (r: Result<Case>)
    ensures r == ExampleCase(text, eval)
  {
    var lines := Split(text, '\n');
    if |lines| < 2 {
      return Err(IndexError);
    }
    var seg := if lines[1] == [] then [] else lines[1][1..];
    var output := FormatOutput(seg, eval);
    if output.Err? {
      return Err(output.error);
    }
    var input := ParseInput(lines[0], eval);
    if input.Err? {
      return Err(input.error);
    }
    r := Ok(Case(input.value, output.value));
  }

  /** Once a prefix of the blocks fails, every longer prefix fails with the same error. */
  lemma {:induction false} TestCasesAbort(blocks: seq<string>, i: nat, eval: Eval)
    requires i <= |blocks| && TestCases(blocks[..i], eval).Err?
    ensures TestCases(blocks, eval) == TestCases(blocks[..i], eval)
    decreases |blocks| - i
  {
    if i < |blocks| {
      assert blocks[..i + 1][..i] == blocks[..i];
      TestCasesAbort(blocks, i + 1, eval);
    } else {
      assert blocks[..i] == blocks;
    }
  }

  lemma JoinCons(x: string, rest: seq<string>, sep: char)
    requires rest != []
    ensures Join([x] + rest, sep) == x + [sep] + Join(rest, sep)
  {
    assert ([x] + rest)[1..] == rest;
  }

  lemma JoinFour(a: string, b: string, c: string, d: string, sep: char)
    ensures Join([a, b, c, d], sep) == a + [sep] + b + [sep] + c + [sep] + d
  {
    JoinCons(c, [d], sep);
    assert [c, d][1..] == [d];
    JoinCons(b, [c, d], sep);
    assert [b, c, d] == [b] + [c, d];
    JoinCons(a, [b, c, d], sep);
    assert [a, b, c, d] == [a] + [b, c, d];
  }

  /** The arguments of the first example of Two Sum. */
  function TwoSumArgs(): seq<Arg> {
    [Arg("nums", IntArray([2, 7, 11, 15])), Arg("target", Scalar("9"))]
  }

  lemma TwoSumDigits()
    ensures IntTexts([2, 7, 11, 15]) == ["2", "7", "11", "15"]
  {
    assert NatToDecimal(11) == "11" by {
      assert NatToDecimal(1) == "1";
    }
    assert NatToDecimal(15) == "15" by {
      assert NatToDecimal(1) == "1";
    }
  }

  lemma TwoSumArray()
    ensures RenderValue(IntArray([2, 7, 11, 15])) == "[2,7,11,15]"
  {
    TwoSumDigits();
    JoinFour("2", "7", "11", "15", ',');
  }

  lemma TwoSumRendered()
    ensures RenderArgs(TwoSumArgs()) == "nums = [2,7,11,15], target = 9"
  {
    TwoSumArray();
    var args := TwoSumArgs();
    assert RenderArg(args[0]) == "nums = [2,7,11,15]";
    assert RenderArg(args[1]) == "target = 9";
    assert args[1..] == [args[1]];
  }

  lemma TwoSumTokens()
    ensures Join(Tokens(TwoSumArgs()), ' ') == "4 2 7 11 15 9"
  {
    var args := TwoSumArgs();
    TwoSumDigits();
    JoinFour("2", "7", "11", "15", ' ');
    assert TokenOf(args[0].value) == "4 2 7 11 15";
    assert Tokens(args) == ["4 2 7 11 15", "9"];
    JoinCons("4 2 7 11 15", ["9"], ' ');
  }

  lemma TwoSumInput(eval: Eval)
    requires eval("[2,7,11,15]") == Some([Int(2), Int(7), Int(11), Int(15)])
    ensures ParseInputSpec("nums = [2,7,11,15], target = 9", eval) == Ok("4 2 7 11 15 9")
  {
    TwoSumWellFormed(eval);
    ParseInputOfArgs(TwoSumArgs(), eval);
    TwoSumRendered();
    TwoSumTokens();
  }

  lemma TwoSumWellFormed(eval: Eval)
    requires eval("[2,7,11,15]") == Some([Int(2), Int(7), Int(11), Int(15)])
    ensures TwoSumArgs() != [] && WellFormed(TwoSumArgs()) && EvalsArrays(TwoSumArgs(), eval)
  {
    var args := TwoSumArgs();
    assert '=' !in args[0].name && '=' !in args[1].name by {
      assert args[0].name == "nums" && args[1].name == "target";
    }
    assert WellFormedValue(args[1].value) by {
      assert args[1].value == Scalar("9");
    }
    assert eval(RenderValue(args[0].value)) == Some(Ints(args[0].value.elems)) by {
      TwoSumArray();
      assert Ints([2, 7, 11, 15]) == [Int(2), Int(7), Int(11), Int(15)];
    }
  }

  /**
    The first example of Two Sum: the input becomes the array length, its
    elements and the target; the output array its elements.
   */
  lemma TwoSumExample(eval: Eval)
    requires eval("[2,7,11,15]") == Some([Int(2), Int(7), Int(11), Int(15)])
    requires eval("[0,1]") == Some([Int(0), Int(1)])
    ensures ExampleCase("nums = [2,7,11,15], target = 9\n [0,1]", eval)
         == Ok(Case("4 2 7 11 15 9", "0 1"))
  {
    TwoSumLines();
    TwoSumOutput(eval);
    TwoSumInput(eval);
  }

  lemma TwoSumLines()
    ensures Split("nums = [2,7,11,15], target = 9\n [0,1]", '\n')
         == ["nums = [2,7,11,15], target = 9", " [0,1]"]
  {
    var first := "nums = [2,7,11,15], target = 9";
    var second := " [0,1]";
    assert Join([first, second], '\n') == "nums = [2,7,11,15], target = 9\n [0,1]" by {
      assert Join([first, second], '\n') == first + ['\n'] + second;
    }
    assert '\n' !in first && '\n' !in second by {
      assert forall k :: 0 <= k < |first| ==> first[k] != '\n';
      assert forall k :: 0 <= k < |second| ==> second[k] != '\n';
    }
    SplitJoin([first, second], '\n');
  }

  lemma TwoSumOutput(eval: Eval)
    requires eval("[0,1]") == Some([Int(0), Int(1)])
    ensures FormatOutput(" [0,1]"[1..], eval) == Ok("0 1")
  {
    assert " [0,1]"[1..] == "[0,1]";
    assert IntTexts([0, 1]) == ["0", "1"] && Ints([0, 1]) == [Int(0), Int(1)];
    JoinCons("0", ["1"], ',');
    assert RenderValue(IntArray([0, 1])) == "[0,1]";
    IntListOutput([0, 1], eval);
    JoinCons("0", ["1"], ' ');
    assert Join(["0", "1"], ' ') == "0 1";
  }
}
