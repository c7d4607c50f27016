/** The text preparation of the embedder (basic.py): the windowing of a
    token sequence into model-sized chunks in `embed_`, and the merging of a
    dialogue into one text in `embed_dialogue`. The tokenizer and the
    network are outside the model: tokens, and the two special tokens that
    open and close a window, are given. */
module BasicEmbed {
  import opened Wrappers
  import opened Sequences
  import opened Strings
  import opened Arith

  type Token = string

  /** How `embed_` fails: `range` with a zero step raises, and stacking no
      window embeddings raises. */
  datatype EmbedError = RangeStepZero | EmptyStack

  function Min(a: int, b: int): int
  {
    if a <= b then a else b
  }

  /** Python `tokens[start:start + chunkLen]` for a start inside the
      sequence: the slice stops at the end of the sequence. */
  function Slice(tokens: seq<Token>, start: nat, chunkLen: nat): (r: seq<Token>)
    requires start <= |tokens|
    ensures |r| <= chunkLen
    ensures r == tokens[start..Min(start + chunkLen, |tokens|)]
  {
    tokens[start..Min(start + chunkLen, |tokens|)]
  }

  /** One window: the opening token, the slice, the closing token. */
  function Window(tokens: seq<Token>, start: nat, chunkLen: nat, cls: Token, sep: Token): seq<Token>
    requires start <= |tokens|
  {
    [cls] + Slice(tokens, start, chunkLen) + [sep]
  }

  /** `w` opens with `cls`, closes with `sep` and holds at most `chunkLen`
      tokens between them. */
  predicate Framed(w: seq<Token>, chunkLen: nat, cls: Token, sep: Token)
  {
    2 <= |w| <= chunkLen + 2 && w[0] == cls && w[|w| - 1] == sep
  }

  /** The windows whose starts are `start`, `start + chunkLen`, ... below
      `|tokens|`. */
  function WindowsFrom(tokens: seq<Token>, start: nat, chunkLen: nat, cls: Token, sep: Token): (r: seq<seq<Token>>)
    requires chunkLen > 0
    ensures forall k :: 0 <= k < |r| ==> Framed(r[k], chunkLen, cls, sep)
    decreases |tokens| - start
  {
    if start >= |tokens| then []
    else [Window(tokens, start, chunkLen, cls, sep)] + WindowsFrom(tokens, start + chunkLen, chunkLen, cls, sep)
  }

  /** A window without its opening and closing tokens (nothing for a
      sequence too short to be a window). */
  function Inner(w: seq<Token>): seq<Token>
  {
    if |w| < 2 then [] else w[1..|w| - 1]
  }

  /** The inner slices of windows, in order. */
  function Inners(ws: seq<seq<Token>>): seq<seq<Token>>
  {
    seq(|ws|, k requires 0 <= k < |ws| => Inner(ws[k]))
  }

  /** `k * c` as repeated addition, which keeps the window lemmas linear. */
  function Offset(k: nat, c: nat): nat
  {
    if k == 0 then 0 else Offset(k - 1, c) + c
  }

  lemma {:induction false} OffsetIsProduct(k: nat, c: nat)
    ensures Offset(k, c) == k * c
  {
    if k > 0 {
      OffsetIsProduct(k - 1, c);
      assert (k - 1) * c + c == k * c;
    }
  }

  /** The number of windows `m` tokens need, `c` tokens per window. */
  function ChunkCount(m: nat, c: nat): nat
    requires c > 0
    decreases m
  {
    if m == 0 then 0 else if m <= c then 1 else 1 + ChunkCount(m - c, c)
  }

  /** That number is the ceiling of `m / c`. */
  lemma {:induction false} ChunkCountIsCeiling(m: nat, c: nat)
    requires c > 0
    ensures ChunkCount(m, c) == (m + c - 1) / c
    decreases m
  {
    if m == 0 {
      DivModUnique(c - 1, c, 0, c - 1);
    } else if m <= c {
      DivModUnique(m + c - 1, c, 1, m - 1);
    } else {
      ChunkCountIsCeiling(m - c, c);
      var q := (m - 1) / c;
      var r := (m - 1) % c;
      assert m - 1 == q * c + r;
      assert m + c - 1 == (q + 1) * c + r;
      DivModUnique(m + c - 1, c, q + 1, r);
    }
  }

  /** The `k`-th window starts at `start + Offset(k, chunkLen)`, inside the
      sequence, and holds at most `chunkLen` tokens between the two special
      ones. */
  lemma {:induction false} WindowsFromAt(tokens: seq<Token>, start: nat, chunkLen: nat, cls: Token, sep: Token, k: nat)
    requires chunkLen > 0
    requires k < |WindowsFrom(tokens, start, chunkLen, cls, sep)|
    ensures start + Offset(k, chunkLen) < |tokens|
    ensures WindowsFrom(tokens, start, chunkLen, cls, sep)[k] == Window(tokens, start + Offset(k, chunkLen), chunkLen, cls, sep)
    ensures 2 <= |WindowsFrom(tokens, start, chunkLen, cls, sep)[k]| <= chunkLen + 2
    decreases k
  {
    if k > 0 {
      WindowsFromAt(tokens, start + chunkLen, chunkLen, cls, sep, k - 1);
      assert chunkLen + Offset(k - 1, chunkLen) == Offset(k, chunkLen);
    }
  }

  /** The inner slices of a window followed by more windows. */
  lemma InnersCons(w: seq<Token>, rest: seq<seq<Token>>)
    ensures Inners([w] + rest) == [Inner(w)] + Inners(rest)
  {
    assert Inners([w] + rest)[1..] == Inners(rest);
  }

  /** Nothing is lost or repeated: the inner slices of the windows from
      `start` concatenate to the tokens from `start`. */
  lemma {:induction false} WindowsFromCover(tokens: seq<Token>, start: nat, chunkLen: nat, cls: Token, sep: Token)
    requires chunkLen > 0 && start <= |tokens|
    ensures Flatten(Inners(WindowsFrom(tokens, start, chunkLen, cls, sep))) == tokens[start..]
    decreases |tokens| - start
  {
    if start < |tokens| {
      var next := start + chunkLen;
      var rest := WindowsFrom(tokens, next, chunkLen, cls, sep);
      var head := Slice(tokens, start, chunkLen);
      var w := [cls] + head + [sep];
      assert WindowsFrom(tokens, start, chunkLen, cls, sep) == [w] + rest;
      assert Inner(w) == head;
      InnersCons(w, rest);
      assert ([head] + Inners(rest))[1..] == Inners(rest);
      if next <= |tokens| {
        WindowsFromCover(tokens, next, chunkLen, cls, sep);
        assert tokens[start..] == tokens[start..next] + tokens[next..];
      } else {
        assert Inners(rest) == [];
      }
    }
  }

  /** The windows from `start` are as many as the remaining tokens need. */
  lemma {:induction false} WindowsFromCount(tokens: seq<Token>, start: nat, chunkLen: nat, cls: Token, sep: Token)
    requires chunkLen > 0 && start <= |tokens|
    ensures |WindowsFrom(tokens, start, chunkLen, cls, sep)| == ChunkCount(|tokens| - start, chunkLen)
    decreases |tokens| - start
  {
    if start < |tokens| {
      if start + chunkLen <= |tokens| {
        WindowsFromCount(tokens, start + chunkLen, chunkLen, cls, sep);
      } else {
        assert WindowsFrom(tokens, start + chunkLen, chunkLen, cls, sep) == [];
      }
    }
  }

  /** `ws` windows the tokens with `chunkLen` tokens per window: there are
      ceil(|tokens| / chunkLen) windows, window `k` starts at token
      `k * chunkLen` and holds at most `chunkLen` of them between the two
      special tokens, and the inner slices give back the tokens. */
  predicate ChunkedWindows(tokens: seq<Token>, chunkLen: nat, cls: Token, sep: Token, ws: seq<seq<Token>>)
    requires chunkLen > 0
  {
    && |ws| == (|tokens| + chunkLen - 1) / chunkLen
    && (forall k :: 0 <= k < |ws| ==>
          && k * chunkLen < |tokens|
          && ws[k] == [cls] + tokens[k * chunkLen..Min(k * chunkLen + chunkLen, |tokens|)] + [sep]
          && 2 <= |ws[k]| <= chunkLen + 2)
    && Flatten(Inners(ws)) == tokens
  }

  /** The windows from the start of a token sequence are chunked windows. */
  lemma WindowsLayout(tokens: seq<Token>, chunkLen: nat, cls: Token, sep: Token)
    requires chunkLen > 0
    ensures ChunkedWindows(tokens, chunkLen, cls, sep, WindowsFrom(tokens, 0, chunkLen, cls, sep))
  {
    var ws := WindowsFrom(tokens, 0, chunkLen, cls, sep);
    WindowsFromCount(tokens, 0, chunkLen, cls, sep);
    ChunkCountIsCeiling(|tokens|, chunkLen);
    forall k | 0 <= k < |ws|
      ensures k * chunkLen < |tokens|
      ensures ws[k] == [cls] + tokens[k * chunkLen..Min(k * chunkLen + chunkLen, |tokens|)] + [sep]
      ensures 2 <= |ws[k]| <= chunkLen + 2
    {
      WindowAtProduct(tokens, chunkLen, cls, sep, k);
    }
    WindowsFromCover(tokens, 0, chunkLen, cls, sep);
    assert tokens[0..] == tokens;
  }

  lemma WindowAtProduct(tokens: seq<Token>, chunkLen: nat, cls: Token, sep: Token, k: nat)
    requires chunkLen > 0 && k < |WindowsFrom(tokens, 0, chunkLen, cls, sep)|
    ensures k * chunkLen < |tokens|
    ensures WindowsFrom(tokens, 0, chunkLen, cls, sep)[k] == [cls] + tokens[k * chunkLen..Min(k * chunkLen + chunkLen, |tokens|)] + [sep]
    ensures 2 <= |WindowsFrom(tokens, 0, chunkLen, cls, sep)[k]| <= chunkLen + 2
  {
    WindowsFromAt(tokens, 0, chunkLen, cls, sep, k);
    OffsetIsProduct(k, chunkLen);
  }

  /** The windowing loop of `embed_`: with `chunk_len = max_len - 4`, one
      window per start `0, chunk_len, 2 * chunk_len, ...` below the number
      of tokens. A zero `chunk_len` makes `range` raise; no window at all
      (no tokens, or a negative `chunk_len`, for which `range` is empty)
      makes the final stack raise. */
  method EmbedWindows(tokens: seq<Token>, maxLen: int, cls: Token, sep: Token)
    returns (r: Result<seq<seq<Token>>, EmbedError>)
    ensures maxLen == 4 ==> r == Failure(RangeStepZero)
    ensures maxLen != 4 && (maxLen < 4 || tokens == []) ==> r == Failure(EmptyStack)
    ensures maxLen > 4 && tokens != [] ==>
      && r.Success?
      && r.value == WindowsFrom(tokens, 0, maxLen - 4, cls, sep)
      && ChunkedWindows(tokens, maxLen - 4, cls, sep, r.value)
  {
    var chunkLen := maxLen - 4;
    if chunkLen == 0 {
      return Failure(RangeStepZero);
    }
    if chunkLen < 0 {
      return Failure(EmptyStack);
    }
    var windows: seq<seq<Token>> := [];
    var i: nat := 0;
    while i < |tokens|
      invariant windows + WindowsFrom(tokens, i, chunkLen, cls, sep) == WindowsFrom(tokens, 0, chunkLen, cls, sep)
      decreases |tokens| - i
    {
      var chunk := [cls];
      chunk := chunk + tokens[i..Min(i + chunkLen, |tokens|)];
      chunk := chunk + [sep];
      assert WindowsFrom(tokens, i, chunkLen, cls, sep) == [chunk] + WindowsFrom(tokens, i + chunkLen, chunkLen, cls, sep);
      windows := windows + [chunk];
      i := i + chunkLen;
    }
    assert windows == WindowsFrom(tokens, 0, chunkLen, cls, sep);
    if windows == [] {
      return Failure(EmptyStack);
    }
    WindowsLayout(tokens, chunkLen, cls, sep);
    r := Success(windows);
  }

  /** `embed_dialogue`'s text: "q:a" per pair joined by newlines, an empty
      dialogue standing for the single pair ("", ""). */
  function MergedDialogue(qas: seq<(string, string)>): string
  {
    Join("\n", PairTexts(if qas == [] then [("", "")] else qas))
  }

  /** An empty dialogue merges to ":". */
  lemma MergedEmptyDialogue()
    ensures MergedDialogue([]) == ":"
  {
    assert PairText(("", "")) == ":";
    assert PairTexts([("", "")]) == [":"];
  }

  /** The merged text splits back at its newlines into the pair texts, in
      dialogue order, when no question or answer holds a newline. */
  lemma MergedDialogueSplits(qas: seq<(string, string)>)
    requires qas != []
    requires forall i :: 0 <= i < |qas| ==> '\n' !in qas[i].0 && '\n' !in qas[i].1
    ensures Split(MergedDialogue(qas), '\n') == PairTexts(qas)
    ensures |Split(MergedDialogue(qas), '\n')| == |qas|
  {
    var texts := PairTexts(qas);
    forall i | 0 <= i < |texts|
      ensures '\n' !in texts[i]
    {
      assert texts[i] == qas[i].0 + ":" + qas[i].1;
    }
    SplitJoin(texts, '\n');
  }
}
