/** What one step of the parser of json.c does, case by case: `json_merge_value`
    for each kind of top context, the pop of `}` and `]`, and the effect of each
    token kind in the `switch` of `json_parse`. */
module JsonSteps {
  import opened Options
  import opened CStrings
  import opened HashTable
  import opened HashTableFacts
  import opened Json

  /** With no open context the value replaces the result record, and nothing else
      changes. */
  lemma MergeAtRoot(st: ParserState, hash: HashFn, value: Json)
    requires CtxOk(st.ctx) && st.ctx == []
    ensures Merge(st, hash, value) == st.(result := value)
  {
  }

  /** With an array on top the value is appended to it; the keys, the result and
      the contexts below the top are unchanged. */
  lemma MergeIntoArray(st: ParserState, hash: HashFn, value: Json)
    requires CtxOk(st.ctx) && st.ctx != [] && st.ctx[|st.ctx| - 1].value.Array?
    ensures var n := |st.ctx|;
            Merge(st, hash, value) ==
              st.(ctx := st.ctx[..n - 1] + [Json(false, Array(st.ctx[n - 1].value.items + [value]))])
  {
  }

  /** With an object on top the last pending key is popped and the pair is `set`
      into the object's table; the result and the contexts below are unchanged. */
  lemma MergeIntoObject(st: ParserState, hash: HashFn, value: Json)
    requires CtxOk(st.ctx) && st.ctx != [] && st.ctx[|st.ctx| - 1].value.Object? && st.keys != []
    ensures var n := |st.ctx|; var key := st.keys[|st.keys| - 1];
            Merge(st, hash, value) ==
              st.(keys := st.keys[..|st.keys| - 1],
                  ctx := st.ctx[..n - 1] + [Json(false, Object(TableSet(st.ctx[n - 1].value.table, hash, key, value)))])
  {
  }

  /** With an object on top and no pending key the value is dropped. */
  lemma MergeWithoutKey(st: ParserState, hash: HashFn, value: Json)
    requires CtxOk(st.ctx) && st.ctx != [] && st.ctx[|st.ctx| - 1].value.Object? && st.keys == []
    ensures Merge(st, hash, value) == st
  {
  }

  /** A member merged under a key the object did not hold is found there again by
      `get`, unless its probe sequence was full. */
  lemma MergeThenGet(st: ParserState, hash: HashFn, value: Json)
    requires CtxOk(st.ctx) && st.ctx != [] && st.ctx[|st.ctx| - 1].value.Object? && st.keys != []
    requires var table := st.ctx[|st.ctx| - 1].value.table; var key := st.keys[|st.keys| - 1];
             (forall p :: 0 <= p < |table.slots| ==> !HoldsKey(table.slots[p], key)) &&
             TableSet(table, hash, key, value).size == table.size + 1
    ensures var table := st.ctx[|st.ctx| - 1].value.table; var key := st.keys[|st.keys| - 1];
            var stored := TableSet(table, hash, key, value);
            Merge(st, hash, value).ctx[|st.ctx| - 1] == Json(false, Object(stored)) &&
            TableGet(stored, hash, key) == Some(value)
  {
    var table := st.ctx[|st.ctx| - 1].value.table;
    var key := st.keys[|st.keys| - 1];
    MergeIntoObject(st, hash, value);
    GetAfterSetFresh(table, hash, key, value);
  }

  /** Closing the only open context makes it the result record. */
  lemma CloseIntoResult(st: ParserState, hash: HashFn)
    requires CtxOk(st.ctx) && |st.ctx| == 1
    ensures Close(st, hash) == Defined(st.(ctx := [], result := st.ctx[0]))
  {
    assert st.ctx[..0] == [];
  }

  /** Closing a context whose parent is an array appends it to that array. */
  lemma CloseIntoArray(st: ParserState, hash: HashFn)
    requires CtxOk(st.ctx) && |st.ctx| >= 2 && st.ctx[|st.ctx| - 2].value.Array?
    ensures var n := |st.ctx|;
            Close(st, hash) ==
              Defined(st.(ctx := st.ctx[..n - 2] + [Json(false, Array(st.ctx[n - 2].value.items + [st.ctx[n - 1]]))]))
  {
    var n := |st.ctx|;
    var popped := st.(ctx := st.ctx[..n - 1]);
    MergeIntoArray(popped, hash, st.ctx[n - 1]);
    assert popped.ctx[..n - 2] == st.ctx[..n - 2];
  }

  /** Closing a context whose parent is an object `set`s it there under the last
      pending key, which is popped. */
  lemma CloseIntoObject(st: ParserState, hash: HashFn)
    requires CtxOk(st.ctx) && |st.ctx| >= 2 && st.ctx[|st.ctx| - 2].value.Object? && st.keys != []
    ensures var n := |st.ctx|; var key := st.keys[|st.keys| - 1];
            Close(st, hash) ==
              Defined(st.(keys := st.keys[..|st.keys| - 1],
                          ctx := st.ctx[..n - 2] + [Json(false, Object(TableSet(st.ctx[n - 2].value.table, hash, key, st.ctx[n - 1])))]))
  {
    var n := |st.ctx|;
    var popped := st.(ctx := st.ctx[..n - 1]);
    MergeIntoObject(popped, hash, st.ctx[n - 1]);
    assert popped.ctx[..n - 2] == st.ctx[..n - 2];
  }

  /** Closing a context whose parent is an object with no pending key loses the
      closed container. */
  lemma CloseWithoutKey(st: ParserState, hash: HashFn)
    requires CtxOk(st.ctx) && |st.ctx| >= 2 && st.ctx[|st.ctx| - 2].value.Object? && st.keys == []
    ensures Close(st, hash) == Defined(st.(ctx := st.ctx[..|st.ctx| - 1]))
  {
    var n := |st.ctx|;
    MergeWithoutKey(st.(ctx := st.ctx[..n - 1]), hash, st.ctx[n - 1]);
  }

  /** `{` and `[` push an empty object or array context; nothing else changes. */
  lemma StepOpen(s: seq<char>, hash: HashFn, st: ParserState, t: Token)
    requires st.offset <= |s| && CtxOk(st.ctx) && (t.BraceLeft? || t.BracketLeft?)
    ensures Step(s, hash, st, t) ==
              Defined(st.(ctx := st.ctx + [Json(false, if t.BraceLeft? then Object(NewTable()) else Array([]))]))
  {
  }

  /** White space, `:` and `,` change nothing. */
  lemma StepSeparator(s: seq<char>, hash: HashFn, st: ParserState, t: Token)
    requires st.offset <= |s| && CtxOk(st.ctx) && (t.Whitespace? || t.Colon? || t.Comma?)
    ensures Step(s, hash, st, t) == Defined(st)
  {
  }

  /** `]` closes the top context at once; `}` first skips white space and closes
      it only when `,`, `}`, `]` or the end follows, and otherwise only clears
      `ok`. */
  lemma StepClose(s: seq<char>, hash: HashFn, st: ParserState, t: Token)
    requires st.offset <= |s| && CtxOk(st.ctx) && (t.BraceRight? || t.BracketRight?)
    ensures var j := if t.BraceRight? then MatchOffset(s, st.offset, true) else st.offset;
            var c := CharAt(s, j);
            Step(s, hash, st, t) ==
              if t.BraceRight? && c != Nul && c !in ",}]" then Defined(Fail(st.(offset := j)))
              else Close(st.(offset := j), hash)
  {
  }

  /** A string token: after the white space, `:` makes it a pending key; `,`,
      `}`, `]` or the end make it a value merged into the top context or the
      result; anything else only clears `ok`. */
  lemma StepString(s: seq<char>, hash: HashFn, st: ParserState, text: string)
    requires st.offset <= |s| && CtxOk(st.ctx)
    ensures var j := MatchOffset(s, st.offset, true); var c := CharAt(s, j);
            Step(s, hash, st, Str(text)) ==
              if c == ':' then Defined(st.(offset := j, keys := st.keys + [text]))
              else if c == Nul || c in ",}]" then Defined(Merge(st.(offset := j), hash, Json(false, String(text))))
              else Defined(Fail(st.(offset := j)))
  {
  }

  /** A numeral token: after the white space, `,`, `}`, `]` or the end make it a
      value merged in; anything else, `:` included, only clears `ok`. */
  lemma StepNumeral(s: seq<char>, hash: HashFn, st: ParserState, numeral: string)
    requires st.offset <= |s| && CtxOk(st.ctx)
    ensures var j := MatchOffset(s, st.offset, true); var c := CharAt(s, j);
            Step(s, hash, st, Num(numeral)) ==
              if c == Nul || c in ",}]" then Defined(Merge(st.(offset := j), hash, Json(false, Number(numeral))))
              else Defined(Fail(st.(offset := j)))
  {
  }
}
