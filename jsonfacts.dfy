/** What the tokenizer and the token loop of json.c guarantee, proved about the
    functions of module Json: the shape of every lexeme, the fate of the `ok`
    flag, and the behaviour on a few inputs that show the parser's quirks. */
module JsonFacts {
  import opened Options
  import opened CStrings
  import opened Numerals
  import opened HashTable
  import opened HashTableFacts
  import opened Json
  import opened JsonSteps

  /** `scan_token`: a single character for white space and the six structural
      characters (never coalesced); a string token holding exactly the characters
      between its quotes, none of them a quote or NUL; a numeral token as long as `strtod` reads; the end token
      exactly when none of these applies; undefined exactly for a quote without a
      closing quote; and never a Boolean. */
  lemma ScanFacts(s: seq<char>, i: nat)
    requires i <= |s|
    ensures var r := Scan(s, i);
      (r.Undefined? <==> CharAt(s, i) == '"' && Strchr(s, i + 1, '"').None?) &&
      (r.Defined? ==> !r.value.token.Bool?) &&
      (r.Defined? && CharAt(s, i) in " \n\r\t{}[],:" ==>
         r.value.next == i + 1 && Some(r.value.token) == Punctuation(CharAt(s, i))) &&
      (r.Defined? && CharAt(s, i) in Ws ==> r.value.token == Whitespace) &&
      (r.Defined? && r.value.token.Str? ==>
         var e := r.value.next - 1;
         i < e && s[i] == '"' && s[e] == '"' && r.value.token.str == s[i + 1..e] && '"' !in r.value.token.str &&
         NoNul(r.value.token.str)) &&
      (r.Defined? && r.value.token.Num? ==>
         r.value.next == i + NumeralLength(s, i) && r.value.token.numeral == s[i..r.value.next]) &&
      (r.Defined? && r.value.token.NoToken? <==>
         CharAt(s, i) !in " \n\r\t{}[],:\"" && NumeralLength(s, i) == 0)
  {
    var c := CharAt(s, i);
    if Punctuation(c).Some? {
      ScanPunctuation(s, i);
    } else if c == '"' {
      ScanQuote(s, i);
      match Strchr(s, i + 1, '"')
      case None =>
      case Some(e) =>
        var str := s[i + 1..e];
        assert forall k :: 0 <= k < |str| ==> str[k] == s[i + 1 + k];
    } else {
      ScanOther(s, i);
    }
  }

  /** The end of input: at the terminator `scan_token` gives the end token. */
  lemma ScanAtEnd(s: seq<char>)
    ensures Scan(s, |s|) == Defined(Lexeme(NoToken, |s| + 1))
  {
    ScanOther(s, |s|);
    assert NumeralLength(s, |s|) == 0 by {
      assert RunOf(s, |s|, IsSpace) == 0;
      assert Mantissa(s, |s|, IsDigit) == 0;
    }
  }

  /** One turn of the loop, and its exit. */
  lemma RunTurn(s: seq<char>, hash: HashFn, st: ParserState, t: Token, next: nat, st': ParserState)
    requires st.offset <= |s| && CtxOk(st.ctx) && !t.NoToken?
    requires Scan(s, st.offset) == Defined(Lexeme(t, next))
    requires Step(s, hash, st.(offset := next), t) == Defined(st')
    ensures Run(s, hash, st) == Run(s, hash, st')
  {
  }

  lemma RunExit(s: seq<char>, hash: HashFn, st: ParserState)
    requires st.offset == |s| && CtxOk(st.ctx)
    ensures Run(s, hash, st) == Defined(st.result)
  {
    ScanAtEnd(s);
  }

  /** `scan_token` on a one-digit numeral: a digit followed by a character that
      cannot continue a numeral. */
  lemma ScanDigit(s: seq<char>, i: nat)
    requires i < |s| && IsDigit(s[i]) && !IsDigit(CharAt(s, i + 1)) && CharAt(s, i + 1) !in ".eExX"
    ensures Scan(s, i) == Defined(Lexeme(Num([s[i]]), i + 1))
  {
    ScanOther(s, i);
    assert RunOf(s, i, IsSpace) == 0;
    assert RunOf(s, i + 1, IsDigit) == 0;
    assert Mantissa(s, i, IsDigit) == 1;
    assert Exponent(s, i + 1, "eE") == 0;
    assert Subject(s, i) == 1;
    assert s[i..i + 1] == [s[i]];
  }

  /** One turn of the loop on a single-character token. */
  lemma TurnPunctuation(s: seq<char>, hash: HashFn, st: ParserState, t: Token, st': ParserState)
    requires st.offset < |s| && CtxOk(st.ctx) && Punctuation(s[st.offset]) == Some(t)
    requires Step(s, hash, st.(offset := st.offset + 1), t) == Defined(st')
    ensures Run(s, hash, st) == Run(s, hash, st')
  {
    ScanPunctuation(s, st.offset);
    RunTurn(s, hash, st, t, st.offset + 1, st');
  }

  /** One turn of the loop on a one-digit numeral. */
  lemma TurnDigit(s: seq<char>, hash: HashFn, st: ParserState, st': ParserState)
    requires st.offset < |s| && CtxOk(st.ctx) && IsDigit(s[st.offset])
    requires !IsDigit(CharAt(s, st.offset + 1)) && CharAt(s, st.offset + 1) !in ".eExX"
    requires Step(s, hash, st.(offset := st.offset + 1), Num([s[st.offset]])) == Defined(st')
    ensures Run(s, hash, st) == Run(s, hash, st')
  {
    ScanDigit(s, st.offset);
    RunTurn(s, hash, st, Num([s[st.offset]]), st.offset + 1, st');
  }

  /** `match` at the end of input: nothing to skip, and the terminator is found. */
  lemma MatchAtEnd(s: seq<char>, accept: seq<char>)
    ensures MatchOffset(s, |s|, true) == |s| && Peek(s, |s|, accept) == Some(Nul)
  {
  }

  /** The last character closes the only context, which becomes the result. */
  lemma CloseAtEnd(s: seq<char>, hash: HashFn, st: ParserState, c: Json)
    requires |s| > 0 && st.offset == |s| - 1 && s[st.offset] in "}]" && st.ctx == [c] && CtxOk(st.ctx)
    ensures Run(s, hash, st) == Defined(c)
  {
    var st' := st.(offset := |s|, ctx := [], result := c);
    MatchAtEnd(s, ",}]");
    CloseIntoResult(st.(offset := |s|), hash);
    TurnPunctuation(s, hash, st, Punctuation(s[st.offset]).value, st');
    RunExit(s, hash, st');
  }

  /** The first turn of `[]` and of `[}`: a new array context. */
  lemma OpenArray(s: seq<char>, hash: HashFn)
    requires |s| == 2 && s[0] == '['
    ensures Run(s, hash, Initial()) == Run(s, hash, Initial().(offset := 1, ctx := [Json(false, Array([]))]))
  {
    var a := Json(false, Array([]));
    var st0 := Initial().(offset := 1);
    assert st0.ctx + [a] == [a];
    assert Step(s, hash, st0, BracketLeft) == Defined(st0.(ctx := [a]));
    TurnPunctuation(s, hash, Initial(), BracketLeft, st0.(ctx := [a]));
  }

  /** A well-formed array is parsed, and reported as not ok: `[]` gives the empty
      array with `ok` false. */
  lemma EmptyArrayIsNotOk(hash: HashFn)
    ensures Parse("[]", hash) == Defined(Json(false, Array([])))
  {
    var s := "[]";
    var a := Json(false, Array([]));
    OpenArray(s, hash);
    CloseAtEnd(s, hash, Initial().(offset := 1, ctx := [a]), a);
  }

  /** Closing brackets are not matched against the open context: `[}` closes the
      array as `]` would. */
  lemma MismatchedCloseIsAccepted(hash: HashFn)
    ensures Parse("[}", hash) == Parse("[]", hash)
  {
    var s := "[}";
    var a := Json(false, Array([]));
    OpenArray(s, hash);
    CloseAtEnd(s, hash, Initial().(offset := 1, ctx := [a]), a);
    EmptyArrayIsNotOk(hash);
  }

  /** An error does not stop the parse: in `1 2` the first numeral is followed by
      neither `,`, `}`, `]` nor the end, which clears `ok`, and the loop goes on
      to put the second numeral in the result. */
  lemma ScanningContinuesAfterError(hash: HashFn)
    ensures Parse("1 2", hash) == Defined(Json(false, Number("2")))
  {
    var s := "1 2";
    var st1 := Initial().(offset := 2, result := Json(false, NullObject));
    var st2 := st1.(offset := 3, result := Json(false, Number("2")));
    FirstNumeralFails(s, hash, st1);
    SecondNumeralMerges(s, hash, st1, st2);
    RunExit(s, hash, st2);
  }

  lemma FirstNumeralFails(s: seq<char>, hash: HashFn, st1: ParserState)
    requires s == "1 2" && st1 == Initial().(offset := 2, result := Json(false, NullObject))
    ensures Run(s, hash, Initial()) == Run(s, hash, st1)
  {
    StepNumeral(s, hash, Initial().(offset := 1), "1");
    assert Span(s, 2, Ws) == 0;
    assert Span(s, 1, Ws) == 1;
    assert [s[0]] == "1";
    TurnDigit(s, hash, Initial(), st1);
  }

  lemma SecondNumeralMerges(s: seq<char>, hash: HashFn, st1: ParserState, st2: ParserState)
    requires s == "1 2" && st1 == Initial().(offset := 2, result := Json(false, NullObject))
    requires st2 == st1.(offset := 3, result := Json(false, Number("2")))
    ensures Run(s, hash, st1) == Run(s, hash, st2)
  {
    StepNumeral(s, hash, st1.(offset := 3), "2");
    MatchAtEnd(s, ",}]");
    assert [s[2]] == "2";
    TurnDigit(s, hash, st1, st2);
  }

  /** Closing with no open context is undefined in C (the NULL from `pop` is
      dereferenced). */
  lemma CloseWithoutContext(hash: HashFn)
    ensures Parse("]", hash) == Undefined(PopEmptyContext(1))
  {
    ScanPunctuation("]", 0);
  }

  /** A string without its closing quote is undefined in C (`strchr` returns NULL). */
  lemma UnterminatedStringIsUndefined(hash: HashFn)
    ensures Parse("\"ab", hash) == Undefined(UnterminatedString(0))
  {
    var s := "\"ab";
    ScanQuote(s, 0);
    assert Strchr(s, 1, '"').None?;
  }

  /** The first `set` into a new table succeeds, and `get` then finds the value. */
  lemma FirstMember(hash: HashFn, key: string, v: Json)
    ensures TableSet(NewTable(), hash, key, v).size == 1
    ensures TableGet(TableSet(NewTable(), hash, key, v), hash, key) == Some(v)
  {
    var t := NewTable<Json>();
    NewTableValid<Json>(hash);
    assert Grow(t, hash) == t;
    FirstEmptyAt(t.slots, hash(key), 0);
    GetAfterSetFresh(t, hash, key, v);
  }

  /** A one-member object: `{"a":1}` becomes an object whose table maps `a` to
      the numeral, with `ok` false like every parsed document. */
  lemma OneMemberObject(hash: HashFn)
    ensures var v := Json(false, Number("1"));
            var table := TableSet(NewTable(), hash, "a", v);
            Parse("{\"a\":1}", hash) == Defined(Json(false, Object(table))) &&
            TableGet(table, hash, "a") == Some(v)
  {
    var s := "{\"a\":1}";
    var v := Json(false, Number("1"));
    var table := TableSet(NewTable(), hash, "a", v);
    var st1 := Initial().(offset := 1, ctx := [Json(false, Object(NewTable()))]);
    var st3 := st1.(offset := 5, keys := ["a"]);
    var st4 := st3.(offset := 6, keys := [], ctx := [Json(false, Object(table))]);
    ObjectOpensWithKey(s, hash, st1, st3);
    ObjectValue(s, hash, st3, st4);
    FirstMember(hash, "a", v);
    CloseAtEnd(s, hash, st4, Json(false, Object(table)));
  }

  lemma ObjectOpensWithKey(s: seq<char>, hash: HashFn, st1: ParserState, st3: ParserState)
    requires s == "{\"a\":1}" && st1 == Initial().(offset := 1, ctx := [Json(false, Object(NewTable()))])
    requires st3 == st1.(offset := 5, keys := ["a"])
    ensures Run(s, hash, Initial()) == Run(s, hash, st3)
  {
    NewTableValid<Json>(hash);
    OpenObject(s, hash, Initial());
    assert Initial().ctx + [Json(false, Object(NewTable()))] == st1.ctx;
    var st2 := st1.(offset := 4, keys := ["a"]);
    assert CtxOk(st2.ctx) && s[4] == ':';
    ObjectKey(s, hash, st1, st2);
    TurnSeparator(s, hash, st2);
  }

  /** The turn of white space, `:` and `,`: the character is skipped. */
  lemma TurnSeparator(s: seq<char>, hash: HashFn, st: ParserState)
    requires st.offset < |s| && s[st.offset] in " \n\r\t:," && CtxOk(st.ctx)
    ensures Run(s, hash, st) == Run(s, hash, st.(offset := st.offset + 1))
  {
    var t := Punctuation(s[st.offset]).value;
    TurnPunctuation(s, hash, st, t, st.(offset := st.offset + 1));
  }

  /** The turn of `{`: a new object context with an empty table. */
  lemma OpenObject(s: seq<char>, hash: HashFn, st: ParserState)
    requires st.offset < |s| && s[st.offset] == '{' && CtxOk(st.ctx)
    ensures Run(s, hash, st) == Run(s, hash, st.(offset := st.offset + 1, ctx := st.ctx + [Json(false, Object(NewTable()))]))
  {
    NewTableValid<Json>(hash);
    TurnPunctuation(s, hash, st, BraceLeft, st.(offset := st.offset + 1, ctx := st.ctx + [Json(false, Object(NewTable()))]));
  }

  lemma ObjectKey(s: seq<char>, hash: HashFn, st1: ParserState, st2: ParserState)
    requires s == "{\"a\":1}" && st1 == ParserState(1, [], [Json(false, Object(NewTable()))], Json(true, NullObject))
    requires st2 == st1.(offset := 4, keys := ["a"])
    ensures Run(s, hash, st1) == Run(s, hash, st2)
  {
    NewTableValid<Json>(hash);
    assert Strchr(s, 2, '"') == Some(3);
    assert s[2..3] == "a" && st1.keys + ["a"] == ["a"];
    assert MatchOffset(s, 4, true) == 4 by { assert Span(s, 4, Ws) == 0; }
    ScanQuote(s, 1);
    RunTurn(s, hash, st1, Str("a"), 4, st2);
  }

  lemma ObjectValue(s: seq<char>, hash: HashFn, st3: ParserState, st4: ParserState)
    requires s == "{\"a\":1}"
    requires st3 == ParserState(5, ["a"], [Json(false, Object(NewTable()))], Json(true, NullObject))
    requires st4 == st3.(offset := 6, keys := [], ctx := [Json(false, Object(TableSet(NewTable(), hash, "a", Json(false, Number("1")))))])
    ensures Run(s, hash, st3) == Run(s, hash, st4)
  {
    NewTableValid<Json>(hash);
    StepNumeral(s, hash, st3.(offset := 6), "1");
    assert MatchOffset(s, 6, true) == 6 by { assert Span(s, 6, Ws) == 0; }
    assert [s[5]] == "1";
    assert st3.keys[..0] == [] && st3.ctx[..0] == [];
    assert Merge(st3.(offset := 6), hash, Json(false, Number("1"))) == st4;
    TurnDigit(s, hash, st3, st4);
  }

  /** An unclosed array is not flagged: `[1` leaves the array on the context
      stack and the result record as it started, `ok` included. */
  lemma UnclosedArrayIsOk(hash: HashFn)
    ensures Parse("[1", hash) == Defined(Json(true, NullObject))
  {
    var s := "[1";
    var v := Json(false, Number("1"));
    var st1 := Initial().(offset := 1, ctx := [Json(false, Array([]))]);
    var st2 := st1.(offset := 2, ctx := [Json(false, Array([v]))]);
    OpenArray(s, hash);
    UnclosedArraySecond(s, hash, st1, st2);
    RunExit(s, hash, st2);
  }

  lemma UnclosedArraySecond(s: seq<char>, hash: HashFn, st1: ParserState, st2: ParserState)
    requires s == "[1" && st1 == Initial().(offset := 1, ctx := [Json(false, Array([]))])
    requires st2 == st1.(offset := 2, ctx := [Json(false, Array([Json(false, Number("1"))]))])
    ensures Run(s, hash, st1) == Run(s, hash, st2)
  {
    var v := Json(false, Number("1"));
    ScanDigit(s, 1);
    assert [s[1]] == "1";
    assert Span(s, 2, Ws) == 0;
    assert MatchOffset(s, 2, true) == 2;
    assert Peek(s, 2, ",}]") == Some(Nul);
    assert [] + [v] == [v];
    assert st1.ctx[..0] == [];
    assert Merge(st1.(offset := 2), hash, v) == st2;
    RunTurn(s, hash, st1, Num("1"), 2, st2);
  }
}
