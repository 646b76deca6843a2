/** Splitting text into chunks of bounded UTF-8 length. */
module TextChunks {

  function Utf8Len(c: char): nat {
    if c as int < 0x80 then 1 else if c as int < 0x800 then 2 else if c as int < 0x10000 then 3 else 4
  }

  function ByteLen(s: string): nat {
    if s == [] then 0 else ByteLen(s[..|s| - 1]) + Utf8Len(s[|s| - 1])
  }

  function Join(chunks: seq<string>): string {
    if chunks == [] then [] else Join(chunks[..|chunks| - 1]) + chunks[|chunks| - 1]
  }

  /** A chunk is never empty, and it exceeds the bound only as one character. */
  ghost predicate GoodChunk(c: string, max: nat) {
    c != [] && (ByteLen(c) <= max || |c| == 1)
  }

  /** The splitter's state after reading `text`: the finished chunks and the
      chunk being filled. */
  datatype Splitting = Splitting(chunks: seq<string>, current: string)

  /** Finishes the current chunk if `c` does not fit into it. */
  function Cut(st: Splitting, c: char, max: nat): Splitting {
    if st.current != [] && ByteLen(st.current) + Utf8Len(c) > max then Splitting(st.chunks + [st.current], [])
    else st
  }

  function Feed(st: Splitting, c: char, max: nat): Splitting {
    var cut := Cut(st, c, max);
    if cut.current == [] && Utf8Len(c) > max then cut.(chunks := cut.chunks + [[c]])
    else cut.(current := cut.current + [c])
  }

  function FeedAll(text: string, max: nat): Splitting {
    if text == [] then Splitting([], []) else Feed(FeedAll(text[..|text| - 1], max), text[|text| - 1], max)
  }

  function Chunks(text: string, max: nat): seq<string> {
    var st := FeedAll(text, max);
    if st.current == [] then st.chunks else st.chunks + [st.current]
  }

  method SplitTextDeltas(text: string, max: nat) returns (chunks: seq<string>)
    ensures chunks == Chunks(text, max)
  {
    if text == [] { return []; }
    chunks := [];
    var current: string := [];
    for i := 0 to |text|
      invariant Splitting(chunks, current) == FeedAll(text[..i], max)
    {
      assert text[..i + 1][..i] == text[..i];
      assert FeedAll(text[..i + 1], max) == Feed(FeedAll(text[..i], max), text[i], max);
      var n := Utf8Len(text[i]);
      if current != [] && ByteLen(current) + n > max {
        chunks, current := chunks + [current], [];
      }
      if current == [] && n > max {
        chunks := chunks + [[text[i]]];
        continue;
      }
      current := current + [text[i]];
    }
    assert text[..|text|] == text;
    if current != [] {
      chunks := chunks + [current];
    }
  }

  ghost predicate AllGood(chunks: seq<string>, max: nat) {
    forall i :: 0 <= i < |chunks| ==> GoodChunk(chunks[i], max)
  }

  /** Nothing of the text is lost, and every chunk fits. */
  ghost predicate Holds(st: Splitting, text: string, max: nat) {
    && Join(st.chunks) + st.current == text
    && AllGood(st.chunks, max)
    && (st.current != [] ==> GoodChunk(st.current, max))
  }

  lemma JoinOneMore(chunks: seq<string>, last: string)
    ensures Join(chunks + [last]) == Join(chunks) + last
  {
    assert (chunks + [last])[..|chunks|] == chunks;
  }

  lemma GoodOneMore(chunks: seq<string>, last: string, max: nat)
    requires AllGood(chunks, max) && GoodChunk(last, max)
    ensures AllGood(chunks + [last], max)
  {
  }

  lemma FinishChunk(chunks: seq<string>, current: string, text: string, max: nat)
    requires Holds(Splitting(chunks, current), text, max) && current != []
    ensures Holds(Splitting(chunks + [current], []), text, max)
  {
    JoinOneMore(chunks, current);
    GoodOneMore(chunks, current, max);
    assert Join(chunks) + current + [] == text;
  }

  lemma CutKeeps(st: Splitting, text: string, c: char, max: nat)
    requires Holds(st, text, max)
    ensures Holds(Cut(st, c, max), text, max)
  {
    if Cut(st, c, max) != st { FinishChunk(st.chunks, st.current, text, max); }
  }

  lemma ByteLenOneMore(s: string, c: char)
    ensures ByteLen(s + [c]) == ByteLen(s) + Utf8Len(c)
  {
    assert (s + [c])[..|s|] == s;
  }

  lemma LoneCharacter(chunks: seq<string>, text: string, c: char, max: nat)
    requires Holds(Splitting(chunks, []), text, max)
    ensures Holds(Splitting(chunks + [[c]], []), text + [c], max)
  {
    JoinOneMore(chunks, [c]);
    GoodOneMore(chunks, [c], max);
    assert Join(chunks) + [] == Join(chunks);
    assert Join(chunks) + [c] + [] == text + [c];
  }

  lemma CurrentGrows(chunks: seq<string>, current: string, text: string, c: char, max: nat)
    requires Holds(Splitting(chunks, current), text, max)
    requires current == [] || ByteLen(current) + Utf8Len(c) <= max
    ensures Holds(Splitting(chunks, current + [c]), text + [c], max)
  {
    ByteLenOneMore(current, c);
    assert Join(chunks) + (current + [c]) == Join(chunks) + current + [c];
  }

  lemma FeedKeeps(st: Splitting, text: string, c: char, max: nat)
    requires Holds(st, text, max)
    ensures Holds(Feed(st, c, max), text + [c], max)
  {
    CutKeeps(st, text, c, max);
    var cut := Cut(st, c, max);
    if cut.current == [] && Utf8Len(c) > max {
      LoneCharacter(cut.chunks, text, c, max);
    } else {
      CurrentGrows(cut.chunks, cut.current, text, c, max);
    }
  }

  lemma {:induction false} FeedAllKeeps(text: string, max: nat)
    ensures Holds(FeedAll(text, max), text, max)
  {
    if text != [] {
      var n := |text| - 1;
      FeedAllKeeps(text[..n], max);
      FeedKeeps(FeedAll(text[..n], max), text[..n], text[n], max);
      assert text == text[..n] + [text[n]];
    }
  }

  /** Nothing is lost, reordered or added, and every chunk fits. */
  lemma SplitJoins(text: string, max: nat)
    ensures Join(Chunks(text, max)) == text
    ensures forall c :: c in Chunks(text, max) ==> GoodChunk(c, max)
    ensures Chunks(text, max) == [] <==> text == []
  {
    FeedAllKeeps(text, max);
    var st := FeedAll(text, max);
    assert (st.chunks + [st.current])[..|st.chunks|] == st.chunks;
  }
}
