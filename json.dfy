/** The types of json.h and the behaviour of the tokenizer and parser of json.c
    as functions on values.  The class in parser.dfy performs the same steps on
    its fields and is proved against these functions; jsonfacts.dfy proves what
    they promise. */
module Json {
  import opened Options
  import opened CStrings
  import opened Numerals
  import opened HashTable

  /** The payload of a JSON record, one variant per `enum JSONType` tag.  Numbers
      keep the numeral `strtod` read; its double value is not modelled.
      NullObject is the record `{.ok = true}` that `json_parse` starts from: all
      other fields zero, so tag OBJECT with a NULL map. */
  datatype Value =
    | Object(table: Table<Json>)
    | Array(items: seq<Json>)
    | String(str: string)
    | Number(numeral: string)
    | Boolean(b: bool)
    | NullObject

  /** `JSON`: the `ok` flag and the tagged payload. */
  datatype Json = Json(ok: bool, value: Value)

  /** `TokenType` with the payloads of `Token`. */
  datatype Token =
    | Whitespace
    | BraceLeft
    | BraceRight
    | BracketLeft
    | BracketRight
    | Colon
    | Comma
    | Str(str: string)
    | Num(numeral: string)
    | Bool(b: bool)
    | NoToken

  /** What C leaves undefined, made explicit: `strchr` returning NULL for a string
      without a closing quote, and dereferencing the NULL that `pop` returns for an
      empty context stack. */
  datatype UndefinedBehaviour =
    | UnterminatedString(quote: nat)
    | PopEmptyContext(offset: nat)

  datatype Outcome<T> = Defined(value: T) | Undefined(ub: UndefinedBehaviour)

  /** A token and the offset just past it. */
  datatype Lexeme = Lexeme(token: Token, next: nat)

  /** The fields of `Parser` other than the source: the scan offset, the pending-key
      stack, the context stack (top last) and the result record. */
  datatype ParserState = ParserState(offset: nat, keys: seq<string>, ctx: seq<Json>, result: Json)

  /** `WS` in json.c. */
  const Ws: seq<char> := " \n\r\t"

  /** The token kinds `scan_token` gives a single character by itself. */
  function Punctuation(c: char): (r: Option<Token>)
    ensures r.Some? <==> c in " \n\r\t{}[],:"
    ensures r == Some(Whitespace) <==> c in Ws
  {
    match c
    case ' ' => Some(Whitespace)
    case '\n' => Some(Whitespace)
    case '\r' => Some(Whitespace)
    case '\t' => Some(Whitespace)
    case '{' => Some(BraceLeft)
    case '}' => Some(BraceRight)
    case '[' => Some(BracketLeft)
    case ']' => Some(BracketRight)
    case ',' => Some(Comma)
    case ':' => Some(Colon)
    case _ => None
  }

  /** `scan_token` at offset `i`: one lexeme.  White space and the six structural
      characters are one character each; a string runs to the next `"` with no
      escapes; anything else is a numeral if `strtod` reads one there, and
      otherwise (the terminator included) the end token.  The Boolean kind is
      never produced. */
  function Scan(s: seq<char>, i: nat): (r: Outcome<Lexeme>)
    requires i <= |s|
    ensures r.Defined? ==> i < r.value.next
    ensures r.Defined? && !r.value.token.NoToken? ==> r.value.next <= |s|
  {
    var c := CharAt(s, i);
    match Punctuation(c)
    case Some(t) => Defined(Lexeme(t, i + 1))
    case None =>
      if c == '"' then
        match Strchr(s, i + 1, '"')
        case None => Undefined(UnterminatedString(i))
        case Some(e) => Defined(Lexeme(Str(s[i + 1..e]), e + 1))
      else
        var n := NumeralLength(s, i);
        if n > 0 then Defined(Lexeme(Num(s[i..i + n]), i + n)) else Defined(Lexeme(NoToken, i + 1))
  }

  /** The three cases of `scan_token` one at a time: a single character; a quote,
      with or without its closing quote; and anything else. */
  lemma ScanPunctuation(s: seq<char>, i: nat)
    requires i <= |s| && Punctuation(CharAt(s, i)).Some?
    ensures Scan(s, i) == Defined(Lexeme(Punctuation(CharAt(s, i)).value, i + 1))
  {
  }

  lemma ScanQuote(s: seq<char>, i: nat)
    requires i <= |s| && CharAt(s, i) == '"'
    ensures Scan(s, i) == match Strchr(s, i + 1, '"')
                          case None => Undefined(UnterminatedString(i))
                          case Some(e) => Defined(Lexeme(Str(s[i + 1..e]), e + 1))
  {
  }

  lemma ScanOther(s: seq<char>, i: nat)
    requires i <= |s| && Punctuation(CharAt(s, i)).None? && CharAt(s, i) != '"'
    ensures var n := NumeralLength(s, i);
            Scan(s, i) == if n > 0 then Defined(Lexeme(Num(s[i..i + n]), i + n)) else Defined(Lexeme(NoToken, i + 1))
  {
  }

  /** The only undefined lexeme: a quote with no closing quote after it. */
  lemma ScanUndefined(s: seq<char>, i: nat)
    requires i <= |s| && Scan(s, i).Undefined?
    ensures Scan(s, i).ub == UnterminatedString(i) && CharAt(s, i) == '"' && Strchr(s, i + 1, '"').None?
  {
  }

  /** Where `match` leaves the offset: past the white-space run when asked to skip it. */
  function MatchOffset(s: seq<char>, i: nat, skipWs: bool): (j: nat)
    requires i <= |s|
    ensures i <= j <= |s|
    ensures skipWs ==> CharAt(s, j) !in Ws && forall k :: i <= k < j ==> s[k] in Ws
    ensures !skipWs ==> j == i
  {
    if skipWs then i + Span(s, i, Ws) else i
  }

  /** What `match` returns for the character at `j`, which it never consumes: the
      character when `strchr(accept, ...)` finds it, which includes the terminator,
      and -1 (None) otherwise. */
  function Peek(s: seq<char>, j: nat, accept: seq<char>): (r: Option<char>)
    ensures r.Some? <==> CharAt(s, j) == Nul || CharAt(s, j) in accept
    ensures r.Some? ==> r.value == CharAt(s, j)
  {
    var c := CharAt(s, j);
    if InCString(accept, c) then Some(c) else None
  }

  /** The invariant of the context stack: every element is an array or an object
      (with a usable table) built by the parser, so its `ok` flag is false. */
  ghost predicate CtxOk(ctx: seq<Json>)
  {
    forall i :: 0 <= i < |ctx| ==>
      !ctx[i].ok && (ctx[i].value.Array? || (ctx[i].value.Object? && |ctx[i].value.table.slots| > 0))
  }

  /** `json_merge_value`: with an empty context stack the value replaces the whole
      result record; on an array it is appended; on an object the last pending key
      is popped and the pair `set`, and without a pending key the value is dropped. */
  function Merge(st: ParserState, hash: HashFn, value: Json): (r: ParserState)
    requires CtxOk(st.ctx)
    ensures r.offset == st.offset && |r.ctx| == |st.ctx| && |r.keys| <= |st.keys| && CtxOk(r.ctx)
    ensures r.result == (if st.ctx == [] then value else st.result)
  {
    if st.ctx == [] then st.(result := value)
    else
      var top := st.ctx[|st.ctx| - 1];
      var below := st.ctx[..|st.ctx| - 1];
      match top.value
      case Array(items) => st.(ctx := below + [top.(value := Array(items + [value]))])
      case Object(table) =>
        if st.keys == [] then st
        else
          var key := st.keys[|st.keys| - 1];
          st.(keys := st.keys[..|st.keys| - 1],
              ctx := below + [top.(value := Object(TableSet(table, hash, key, value)))])
      case _ => st
  }

  /** The error path: `p.result.ok = false`, and nothing else. */
  function Fail(st: ParserState): ParserState
  {
    st.(result := st.result.(ok := false))
  }

  /** `}` and `]`: pop the top context, whatever its kind, and merge it into the
      new top; popping an empty stack is undefined. */
  function Close(st: ParserState, hash: HashFn): (r: Outcome<ParserState>)
    requires CtxOk(st.ctx)
    ensures r.Undefined? <==> st.ctx == []
    ensures r.Undefined? ==> r.ub == PopEmptyContext(st.offset)
    ensures r.Defined? ==> r.value.offset == st.offset && |r.value.ctx| == |st.ctx| - 1
                           && |r.value.keys| <= |st.keys| && CtxOk(r.value.ctx)
    ensures r.Defined? ==> r.value.result == st.result || !r.value.result.ok
  {
    if st.ctx == [] then Undefined(PopEmptyContext(st.offset))
    else Defined(Merge(st.(ctx := st.ctx[..|st.ctx| - 1]), hash, st.ctx[|st.ctx| - 1]))
  }

  /** The amount a token changes the depth of the context stack by. */
  function Depth(t: Token): int
  {
    match t
    case BraceLeft => 1
    case BracketLeft => 1
    case BraceRight => -1
    case BracketRight => -1
    case _ => 0
  }

  /** One pass of the `switch` in `json_parse`, for a token scanned up to
      `st.offset`. */
  function Step(s: seq<char>, hash: HashFn, st: ParserState, t: Token): (r: Outcome<ParserState>)
    requires st.offset <= |s| && CtxOk(st.ctx)
    ensures r.Defined? ==> st.offset <= r.value.offset <= |s| && CtxOk(r.value.ctx)
    ensures r.Defined? ==> r.value.result == st.result || !r.value.result.ok
    ensures r.Defined? && !t.BraceRight? ==> |r.value.ctx| == |st.ctx| + Depth(t)
    ensures r.Defined? && t.BraceRight? ==> |r.value.ctx| == |st.ctx| - 1 || r.value == Fail(st.(offset := r.value.offset))
    ensures r.Defined? ==> |r.value.ctx| + |r.value.keys| <= |st.ctx| + |st.keys| + 1
    ensures r.Undefined? ==> st.ctx == [] && (t.BraceRight? || t.BracketRight?)
    ensures r.Undefined? ==> r.ub.PopEmptyContext? && st.offset <= r.ub.offset <= |s|
  {
    match t
    case Whitespace => Defined(st)
    case Colon => Defined(st)
    case Comma => Defined(st)
    case BraceLeft => Defined(st.(ctx := st.ctx + [Json(false, Object(NewTable()))]))
    case BracketLeft => Defined(st.(ctx := st.ctx + [Json(false, Array([]))]))
    case BraceRight =>
      var st1 := st.(offset := MatchOffset(s, st.offset, true));
      if Peek(s, st1.offset, ",}]").None? then Defined(Fail(st1)) else Close(st1, hash)
    case BracketRight => Close(st, hash)
    case Str(text) =>
      var st1 := st.(offset := MatchOffset(s, st.offset, true));
      var next := Peek(s, st1.offset, ":,}]");
      if next.None? then Defined(Fail(st1))
      else if next.value == ':' then Defined(st1.(keys := st1.keys + [text]))
      else Defined(Merge(st1, hash, Json(false, String(text))))
    case Num(numeral) =>
      var st1 := st.(offset := MatchOffset(s, st.offset, true));
      if Peek(s, st1.offset, ",}]").None? then Defined(Fail(st1))
      else Defined(Merge(st1, hash, Json(false, Number(numeral))))
    case Bool(_) => Defined(st)
    case NoToken => Defined(Fail(st))
  }

  /** The loop of `json_parse` from a state on: scan a token, stop at the end
      token, otherwise take the step and go on.  The error paths only clear `ok`;
      scanning always continues to the end token. */
  function Run(s: seq<char>, hash: HashFn, st: ParserState): (r: Outcome<Json>)
    requires st.offset <= |s| && CtxOk(st.ctx)
    decreases |s| - st.offset
    ensures r.Defined? ==> r.value == st.result || !r.value.ok
    ensures r.Undefined? && r.ub.UnterminatedString? ==>
              st.offset <= r.ub.quote < |s| && s[r.ub.quote] == '"' && Strchr(s, r.ub.quote + 1, '"').None?
    ensures r.Undefined? && r.ub.PopEmptyContext? ==> st.offset < r.ub.offset <= |s|
  {
    match Scan(s, st.offset)
    case Undefined(u) => ScanUndefined(s, st.offset); Undefined(u)
    case Defined(lx) =>
      if lx.token.NoToken? then Defined(st.result)
      else
        match Step(s, hash, st.(offset := lx.next), lx.token)
        case Undefined(u) => Undefined(u)
        case Defined(next) => Run(s, hash, next)
  }

  /** The state `json_parse` starts in: offset 0, both stacks empty, result
      `{.ok = true}`. */
  function Initial(): ParserState
  {
    ParserState(0, [], [], Json(true, NullObject))
  }

  /** `json_parse`. */
  function Parse(s: seq<char>, hash: HashFn): (r: Outcome<Json>)
    ensures r.Defined? ==> (r.value.ok <==> r.value == Json(true, NullObject))
  {
    Run(s, hash, Initial())
  }
}
