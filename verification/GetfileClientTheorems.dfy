/** What a client makes of a response, for every way in which `recv` may cut it into chunks. */
module GetfileClientTheorems {
  import opened Basics
  import Decimal
  import opened GetfileClient
  import opened GetfileHeader

  function Join(chunks: seq<string>): string {
    if chunks == [] then "" else chunks[0] + Join(chunks[1..])
  }

  /** recv returns at least one byte until the server closes. */
  predicate Flowing(chunks: seq<string>) {
    forall i :: 0 <= i < |chunks| ==> chunks[i] != ""
  }

  // ---------------------------------------------------------------- gathering the content

  lemma {:induction false} ContinueGathers(chunks: seq<string>, len: nat, received: nat, written: string)
    requires Flowing(chunks) && received + |Join(chunks)| <= len
    ensures Continue(chunks, len, received, written)
         == Stop(GfOk, received + |Join(chunks)|, len, written + Join(chunks))
    decreases |chunks|
  {
    if chunks == [] {
      assert written + "" == written;
    } else {
      assert chunks[0] != "" && received < len;
      ContinueGathers(chunks[1..], len, received + |chunks[0]|, written + chunks[0]);
      assert written + Join(chunks) == (written + chunks[0]) + Join(chunks[1..]);
    }
  }

  /** Some chunk ends exactly where the announced length is reached. */
  predicate Meets(chunks: seq<string>, len: nat, received: nat) {
    received == len || (chunks != [] && Meets(chunks[1..], len, received + |chunks[0]|))
  }

  lemma {:induction false} NeverMeetsAgain(chunks: seq<string>, len: nat, received: nat)
    requires received > len
    ensures !Meets(chunks, len, received)
    decreases |chunks|
  {
    if chunks == [] {
    } else {
      NeverMeetsAgain(chunks[1..], len, received + |chunks[0]|);
    }
  }

  lemma {:induction false} ContinueOverruns(chunks: seq<string>, len: nat, received: nat, written: string)
    requires Flowing(chunks) && received + |Join(chunks)| > len
    ensures var r := Continue(chunks, len, received, written);
            && (r.spins <==> !Meets(chunks, len, received))
            && (!r.spins ==> r.code == 0 && r.received == len && r.status == GfOk)
            && r.length == len
            && r.written <= written + Join(chunks)
            && |r.written| - |written| == r.received - received
    decreases |chunks|
  {
    if received == len {
    } else if chunks == [] {
      assert written + "" == written;
    } else {
      assert (written + chunks[0]) + Join(chunks[1..]) == written + Join(chunks);
      ContinueOverruns(chunks[1..], len, received + |chunks[0]|, written + chunks[0]);
    }
  }

  // ---------------------------------------------------------------- responses in the documented form

  lemma FirstChunk(chunks: seq<string>, text: string, content: string)
    requires Flowing(chunks) && Join(chunks) == text + content && text != ""
    ensures chunks != []
    ensures |chunks[0]| >= |text| ==>
              && chunks[0] == text + chunks[0][|text|..]
              && chunks[0][|text|..] + Join(chunks[1..]) == content
    ensures 0 < |chunks[0]| < |text| ==> chunks[0] == text[..|chunks[0]|]
  {
    assert chunks != [];
    var joined := chunks[0] + Join(chunks[1..]);
    if |chunks[0]| >= |text| {
      assert joined[..|text|] == text && joined[|text|..] == content;
      assert chunks[0][..|text|] == joined[..|text|];
      assert joined[|text|..] == chunks[0][|text|..] + Join(chunks[1..]);
    } else {
      assert chunks[0] == joined[..|chunks[0]|] == text[..|chunks[0]|];
    }
  }

  /** The content arrives whole and unchanged, whatever the chunks, exactly when the first chunk
      holds the whole header; otherwise the client rejects the response.  With the header whole,
      a connection closed early is reported by -1 and the true count. */
  lemma ReceiveIsIndependentOfChunks(n: nat, content: string, chunks: seq<string>)
    requires n < SIZE_LIMIT && |content| <= n
    requires Flowing(chunks) && Join(chunks) == Header(n) + content
    ensures !TooShort(chunks)
    ensures Perform(chunks) ==
      if |chunks[0]| >= |Header(n)|
      then Outcome(false, if |content| == n then 0 else -1, GfOk, |content|, n, content)
      else Outcome(false, -1, GfInvalid, 0, 0, "")
  {
    FirstChunk(chunks, Header(n), content);
    var first := chunks[0];
    var h := |Header(n)|;
    assert Header(n) == Line(n, "") + DELIMITER;
    if |first| >= h {
      var rest := first[h..];
      HeaderIsAccepted(n, "", rest);
      ContinueGathers(chunks[1..], n, |first| - h, rest);
    } else {
      PartialHeaderIsRejected(n, "", |first|);
    }
  }

  /** Two ways of cutting the same response give the same outcome. */
  lemma SameStreamSameOutcome(n: nat, content: string, chunks: seq<string>, others: seq<string>)
    requires n < SIZE_LIMIT && |content| <= n
    requires Flowing(chunks) && Join(chunks) == Header(n) + content && |chunks[0]| >= |Header(n)|
    requires Flowing(others) && Join(others) == Header(n) + content && |others[0]| >= |Header(n)|
    ensures Perform(chunks) == Perform(others)
  {
    ReceiveIsIndependentOfChunks(n, content, chunks);
    ReceiveIsIndependentOfChunks(n, content, others);
  }

  /** A server that sends more than it announced: the client stops with success if a chunk ends
      exactly at the announced length, and never returns if none does. */
  lemma TooMuchContent(n: nat, content: string, chunks: seq<string>)
    requires n < SIZE_LIMIT && |content| > n
    requires Flowing(chunks) && Join(chunks) == Header(n) + content && |chunks[0]| >= |Header(n)|
    ensures var r := Perform(chunks);
            && r.written <= content
            && (r.spins <==> !Meets(chunks[1..], n, |chunks[0]| - |Header(n)|))
            && (!r.spins ==> r.code == 0 && r.received == n)
  {
    FirstChunk(chunks, Header(n), content);
    assert Header(n) == Line(n, "") + DELIMITER;
    var rest := chunks[0][|Header(n)|..];
    HeaderIsAccepted(n, "", rest);
    ContinueOverruns(chunks[1..], n, |rest|, rest);
  }

  /** The chunk that holds a header with the space, seen from the end of the header that the
      client rebuilds: the last line break of the header comes in front of the content. */
  lemma LineBreakIsLeft(n: nat, tail: string)
    ensures var first := Line(n, " ") + DELIMITER + tail;
            |first| >= |Header(n)| && first[|Header(n)|..] == "\n" + tail
  {
    assert Header(n) == Line(n, "") + DELIMITER;
    assert Line(n, " ") + DELIMITER + tail == (Line(n, "") + " \r\n\r") + ("\n" + tail);
  }

  lemma AcceptedWithSpace(n: nat, chunks: seq<string>, tail: string)
    requires n < SIZE_LIMIT && chunks != [] && chunks[0] == Line(n, " ") + DELIMITER + tail
    ensures !TooShort(chunks)
    ensures |chunks[0]| - |Header(n)| == |tail| + 1
    ensures Perform(chunks) == Continue(chunks[1..], n, |tail| + 1, "\n" + tail)
  {
    HeaderIsAccepted(n, " ", tail);
    LineBreakIsLeft(n, tail);
    hide Line, Header, Continue, Reject, Announced;
  }

  /** The repository's own server writes a space before the line breaks.  The client accepts that
      header but rebuilds a shorter one, so it takes the last line break for content.  For every
      split: if the first chunk cuts the header, the response is rejected; otherwise the client
      gathers "\n" + content, and it either never returns, or stops, when a chunk happens to end at
      the announced length, with success and without the last byte. */
  lemma SpaceBeforeDelimiterShifts(content: string, chunks: seq<string>)
    requires |content| < SIZE_LIMIT
    requires Flowing(chunks) && Join(chunks) == Line(|content|, " ") + DELIMITER + content
    ensures !TooShort(chunks)
    ensures var n := |content|;
            var r := Perform(chunks);
            if |chunks[0]| < |Line(n, " ") + DELIMITER| then r == Outcome(false, -1, GfInvalid, 0, 0, "")
            else
              && (r.spins <==> !Meets(chunks[1..], n, |chunks[0]| - |Header(n)|))
              && r.written <= "\n" + content
              && (!r.spins ==> r == Outcome(false, 0, GfOk, n, n, ("\n" + content)[..n]))
  {
    var n := |content|;
    var text := Line(n, " ") + DELIMITER;
    FirstChunk(chunks, text, content);
    var first := chunks[0];
    if |first| < |text| {
      PartialHeaderIsRejected(n, " ", |first|);
    } else {
      var tail := first[|text|..];
      AcceptedWithSpace(n, chunks, tail);
      assert ("\n" + tail) + Join(chunks[1..]) == "\n" + content;
      hide Line, Header, Reject, Announced, Perform, Meets, Join, Continue, TooShort;
      ContinueOverruns(chunks[1..], n, |tail| + 1, "\n" + tail);
    }
  }

  /** What arrives in the case of success is the file only if the file is nothing but line feeds. */
  lemma ShiftIsHarmlessExactlyFor(content: string)
    ensures ("\n" + content)[..|content|] == content <==> forall i :: 0 <= i < |content| ==> content[i] == '\n'
  {
    var shifted := ("\n" + content)[..|content|];
    if shifted == content {
      AllLineFeeds(content, |content|);
    } else {
      var i :| 0 <= i < |content| && shifted[i] != content[i];
    }
  }

  lemma {:induction false} AllLineFeeds(content: string, k: nat)
    requires k <= |content| && ("\n" + content)[..|content|] == content
    ensures forall i :: 0 <= i < k ==> content[i] == '\n'
  {
    if k == 0 {
    } else {
      AllLineFeeds(content, k - 1);
      assert content[k - 1] == ("\n" + content)[..|content|][k - 1];
    }
  }

  /** A reply of two bytes whose last byte comes in a second chunk: the client reports success and
      has written a line feed and the first byte. */
  lemma SuccessWithTheWrongFile()
    ensures Perform([Line(2, " ") + DELIMITER + "a", "b"]) == Outcome(false, 0, GfOk, 2, 2, "\na")
  {
    var first := Line(2, " ") + DELIMITER + "a";
    var chunks := [first, "b"];
    assert chunks[1..] == ["b"];
    assert Join(["b"]) == "b" + Join([]);
    assert Join(chunks) == first + "b" == Line(2, " ") + DELIMITER + "ab";
    SpaceBeforeDelimiterShifts("ab", chunks);
    assert Header(2) == Line(2, "") + DELIMITER;
    assert Meets(chunks[1..], 2, |first| - |Header(2)|);
    assert ("\n" + "ab")[..2] == "\na";
  }

  /** A reply short enough for one `recv` of 512 bytes, in one chunk: the client never returns. */
  lemma WholeReplyInOneChunkSpins(content: string)
    requires |Line(|content|, " ") + DELIMITER + content| <= 512
    ensures Perform([Line(|content|, " ") + DELIMITER + content]).spins
  {
    var first := Line(|content|, " ") + DELIMITER + content;
    var later: seq<string> := [first][1..];
    assert later == [];
    assert Join([first]) == first + Join(later) == first;
    assert Header(|content|) == Line(|content|, "") + DELIMITER;
    SpaceBeforeDelimiterShifts(content, [first]);
  }
}
