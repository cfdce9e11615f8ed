/** The parser of json.c as it runs: a `Parser` object whose offset, key stack,
    context stack and result are updated in place by `next`, `match`,
    `scan_token`, `json_merge_value` and the token loop of `json_parse`.  Each
    method is proved against the functions of module Json. */
module JsonParser {
  import opened Options
  import opened CStrings
  import opened Numerals
  import opened HashTable
  import opened Vectors
  import opened Json

  class Parser {
    const source: seq<char>
    const hash: HashFn
    var offset: nat
    const keys: Vector<string>
    const ctx: Vector<Json>
    var result: Json

    ghost predicate Valid()
      reads this, keys, ctx
    {
      keys.Valid() && ctx.Valid()
    }

    /** The abstract value of the mutable fields. */
    ghost function State(): ParserState
      reads this, keys, keys.items, ctx, ctx.items
      requires Valid()
    {
      ParserState(offset, keys.Elements(), ctx.Elements(), result)
    }

    /** The initialiser of `json_parse`: offset 0, two new vectors, result `{.ok = true}`. */
    constructor (source: seq<char>, hash: HashFn)
      ensures Valid() && this.source == source && this.hash == hash
      ensures fresh(keys) && fresh(keys.items) && fresh(ctx) && fresh(ctx.items)
      ensures State() == Initial()
    {
      this.source := source;
      this.hash := hash;
      offset := 0;
      keys := new Vector<string>();
      ctx := new Vector<Json>();
      result := Json(true, NullObject);
    }

    /** `next`: the character at the offset (the terminator at the end), and the
        offset moves past it. */
    method Next() returns (c: char)
      modifies this`offset
      ensures c == CharAt(source, old(offset)) && offset == old(offset) + 1
    {
      c := CharAt(source, offset);
      offset := offset + 1;
    }

    /** `match`: optionally skips the characters of `WS`, then peeks without
        consuming. */
    method Match(accept: seq<char>, skipWs: bool) returns (r: Option<char>)
      requires offset <= |source|
      modifies this`offset
      ensures offset == MatchOffset(source, old(offset), skipWs)
      ensures r == Peek(source, offset, accept)
    {
      if skipWs {
        offset := offset + Span(source, offset, Ws);
      }
      var c := CharAt(source, offset);
      if !InCString(accept, c) {
        return None;
      }
      return Some(c);
    }

    /** `scan_token`. */
    method ScanToken() returns (t: Outcome<Token>)
      requires offset <= |source|
      modifies this`offset
      ensures Scan(source, old(offset)) == if t.Undefined? then Undefined(t.ub) else Defined(Lexeme(t.value, offset))
    {
      ghost var i := offset;
      var c := Next();
      var single := Punctuation(c);
      if single.Some? {
        ScanPunctuation(source, i);
        return Defined(single.value);
      }
      if c == '"' {
        t := ScanString();
      } else {
        t := ScanNumeral();
      }
    }

    /** The string case of `scan_token`, just past the opening quote: the token
        runs to the next quote, and the offset moves past it. */
    method ScanString() returns (t: Outcome<Token>)
      requires 0 < offset <= |source| && CharAt(source, offset - 1) == '"'
      modifies this`offset
      ensures Scan(source, old(offset) - 1) == if t.Undefined? then Undefined(t.ub) else Defined(Lexeme(t.value, offset))
    {
      ScanQuote(source, offset - 1);
      var start := offset;
      var end := Strchr(source, start, '"');
      if end.None? {
        return Undefined(UnterminatedString(start - 1));
      }
      var len := end.value - start;
      var str := source[start..start + len];
      offset := offset + len + 1;
      return Defined(Str(str));
    }

    /** The last case of `scan_token`, just past a character that is neither
        punctuation nor a quote: `strtod` from that character on. */
    method ScanNumeral() returns (t: Outcome<Token>)
      requires 0 < offset <= |source| + 1
      requires Punctuation(CharAt(source, offset - 1)).None? && CharAt(source, offset - 1) != '"'
      modifies this`offset
      ensures Scan(source, old(offset) - 1) == if t.Undefined? then Undefined(t.ub) else Defined(Lexeme(t.value, offset))
    {
      var start := offset - 1;
      ScanOther(source, start);
      ghost var expected := Scan(source, start);
      var n := NumeralLength(source, start);
      if n > 0 {
        offset := offset + n - 1;
        t := Defined(Num(source[start..start + n]));
        assert expected == Defined(Lexeme(t.value, offset));
        return;
      }
      t := Defined(NoToken);
      assert expected == Defined(Lexeme(NoToken, offset));
    }

    /** `json_merge_value`.  The C code appends to, or sets into, the container the
        top context points to; here that container is the top element itself. */
    method MergeValue(value: Json)
      requires Valid() && CtxOk(ctx.Elements())
      modifies this, keys, ctx.items
      ensures Valid() && ctx.items == old(ctx.items) && keys.items == old(keys.items)
      ensures State() == Merge(old(State()), hash, value)
    {
      ghost var st := State();
      if ctx.len == 0 {
        result := value;
        return;
      }
      var current := ctx.At(SizeMax);
      assert current == st.ctx[|st.ctx| - 1];
      match current.value
      case Array(items) =>
        ctx.UpdateLast(current.(value := Array(items + [value])));
        assert State() == Merge(st, hash, value);
      case Object(table) =>
        var key := keys.Pop();
        if key.None? {
          assert State() == st;
          return;
        }
        assert key.value == st.keys[|st.keys| - 1];
        ctx.UpdateLast(current.(value := Object(TableSet(table, hash, key.value, value))));
        assert State() == Merge(st, hash, value);
      case _ =>
    }

    /** The body of the token loop of `json_parse`, for one token other than the end
        token: None when the step is defined, and the undefined behaviour otherwise. */
    method Dispatch(t: Token) returns (ub: Option<UndefinedBehaviour>)
      requires Valid() && offset <= |source| && CtxOk(ctx.Elements())
      requires ctx.len < SizeMax && keys.len < SizeMax
      modifies this, keys, keys.items, ctx, ctx.items
      ensures Valid()
      ensures keys.items == old(keys.items) || fresh(keys.items)
      ensures ctx.items == old(ctx.items) || fresh(ctx.items)
      ensures match Step(source, hash, old(State()), t)
              case Defined(st) => ub == None && State() == st
              case Undefined(u) => ub == Some(u)
    {
      ub := None;
      match t
      case Whitespace =>
      case Colon =>
      case Comma =>
      case BraceLeft =>
        ctx.Push(Json(false, Object(NewTable())));
      case BraceRight =>
        ghost var st := State();
        var next := Match(",}]", true);
        if next.None? {
          result := result.(ok := false);
          return;
        }
        assert State() == st.(offset := MatchOffset(source, st.offset, true));
        ub := CloseContext();
      case BracketLeft =>
        ctx.Push(Json(false, Array([])));
      case BracketRight =>
        ub := CloseContext();
      case Str(str) =>
        StringToken(str);
      case Num(numeral) =>
        NumberToken(numeral);
      case Bool(_) =>
      case NoToken =>
        result := result.(ok := false);
    }

    /** `}` and `]` after their checks: pop the top context and merge it into the
        one below, or into the result; popping an empty stack is undefined. */
    method CloseContext() returns (ub: Option<UndefinedBehaviour>)
      requires Valid() && CtxOk(ctx.Elements())
      modifies this, keys, ctx, ctx.items
      ensures Valid() && keys.items == old(keys.items) && ctx.items == old(ctx.items)
      ensures match Close(old(State()), hash)
              case Defined(st) => ub == None && State() == st
              case Undefined(u) => ub == Some(u)
    {
      ghost var st := State();
      var top := ctx.Pop();
      if top.None? {
        return Some(PopEmptyContext(offset));
      }
      assert top.value == st.ctx[|st.ctx| - 1];
      assert State() == st.(ctx := st.ctx[..|st.ctx| - 1]);
      assert Close(st, hash) == Defined(Merge(State(), hash, top.value));
      MergeValue(top.value);
      return None;
    }

    /** A string token: a key when `match` finds `:` next, a value merged in when
        it finds `,`, `}`, `]` or the end, and an error otherwise. */
    method StringToken(str: string)
      requires Valid() && offset <= |source| && CtxOk(ctx.Elements()) && keys.len < SizeMax
      modifies this, keys, keys.items, ctx.items
      ensures Valid() && (keys.items == old(keys.items) || fresh(keys.items)) && ctx.items == old(ctx.items)
      ensures Step(source, hash, old(State()), Str(str)) == Defined(State())
    {
      ghost var st := State();
      var next := Match(":,}]", true);
      if next.None? {
        result := result.(ok := false);
        return;
      }
      ghost var st1 := State();
      assert st1 == st.(offset := MatchOffset(source, st.offset, true));
      if next.value == ':' {
        keys.Push(str);
        assert State() == st1.(keys := st1.keys + [str]);
      } else {
        MergeValue(Json(false, String(str)));
      }
    }

    /** A numeral token: merged in when `match` finds `,`, `}`, `]` or the end
        next, and an error otherwise. */
    method NumberToken(numeral: string)
      requires Valid() && offset <= |source| && CtxOk(ctx.Elements())
      modifies this, keys, ctx.items
      ensures Valid() && keys.items == old(keys.items) && ctx.items == old(ctx.items)
      ensures Step(source, hash, old(State()), Num(numeral)) == Defined(State())
    {
      ghost var st := State();
      var next := Match(",}]", true);
      if next.None? {
        result := result.(ok := false);
        return;
      }
      assert State() == st.(offset := MatchOffset(source, st.offset, true));
      MergeValue(Json(false, Number(numeral)));
    }
  }

  /** `json_parse`: scans tokens until the end token and dispatches each one; the
      result record is returned as it stands then.  The source is a C string, so
      its length is a `size_t`. */
  method JsonParse(source: seq<char>, hash: HashFn) returns (r: Outcome<Json>)
    requires |source| < SizeMax
    ensures r == Parse(source, hash)
  {
    var p := new Parser(source, hash);
    while true
      invariant p.Valid() && p.source == source && p.hash == hash
      invariant fresh(p.keys) && fresh(p.keys.items) && fresh(p.ctx) && fresh(p.ctx.items)
      invariant p.offset <= |source| && CtxOk(p.ctx.Elements())
      invariant p.ctx.len + p.keys.len <= p.offset
      invariant Run(source, hash, p.State()) == Parse(source, hash)
      decreases |source| - p.offset
    {
      ghost var before := p.State();
      var t := p.ScanToken();
      if t.Undefined? {
        return Undefined(t.ub);
      }
      if t.value.NoToken? {
        break;
      }
      ghost var scanned := p.State();
      assert scanned == before.(offset := p.offset);
      var ub := p.Dispatch(t.value);
      if ub.Some? {
        return Undefined(ub.value);
      }
    }
    return Defined(p.result);
  }
}
