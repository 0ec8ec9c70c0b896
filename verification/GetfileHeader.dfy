/** What the client reads in the first chunk of a response, for every form of its first line. */
module GetfileHeader {
  import opened Basics
  import Decimal
  import opened GetfileClient

  // ---------------------------------------------------------------- characters

  /** White space inside a line. */
  predicate IsBlank(c: char) { c == ' ' || c == '\t' || c == '\U{0B}' || c == '\U{0C}' }

  predicate Blank(s: string) { forall i :: 0 <= i < |s| ==> IsBlank(s[i]) }

  predicate Breaks(s: string) { forall i :: 0 <= i < |s| ==> s[i] == '\r' || s[i] == '\n' }

  /** A piece of one line of a C string. */
  predicate InLine(s: string) {
    forall i :: 0 <= i < |s| ==> s[i] != '\r' && s[i] != '\n' && s[i] != '\0'
  }

  predicate PlainWord(word: string) {
    word != "" && InLine(word) && forall i :: 0 <= i < |word| ==> !IsBlank(word[i])
  }

  /** Nothing that `%zu` could read. */
  predicate NotASize(t: string) {
    t == "" || (!Decimal.IsDigit(t[0]) && !IsBlank(t[0])
                && (t[0] == '+' || t[0] == '-' ==> |t| == 1 || !Decimal.IsDigit(t[1])))
  }

  /** What `%zu` makes of a numeral: too large a value becomes the largest size_t, and a minus sign
      negates modulo 2^64. */
  function SizeRead(sign: string, n: nat): nat {
    if n >= 0x1_0000_0000_0000_0000 then 0xFFFF_FFFF_FFFF_FFFF
    else if sign == "-" && n > 0 then 0x1_0000_0000_0000_0000 - n
    else n
  }

  // ---------------------------------------------------------------- the C string functions

  lemma {:induction false} CStringKeeps(a: string, b: string)
    requires '\0' !in a
    ensures CString(a + b) == a + CString(b)
  {
    if a == "" {
      assert a + b == b;
    } else {
      assert (a + b)[1..] == a[1..] + b;
      CStringKeeps(a[1..], b);
    }
  }

  lemma {:induction false} CStringIsPrefix(s: string)
    ensures CString(s) <= s
  {
    if s == "" || s[0] == '\0' {
    } else {
      CStringIsPrefix(s[1..]);
    }
  }

  lemma {:induction false} SkipBreaksStops(a: string, b: string)
    requires Breaks(a) && b != "" && !IsBreak(b[0])
    ensures SkipBreaks(a + b) == b
  {
    if a == "" {
      assert a + b == b;
    } else {
      assert (a + b)[1..] == a[1..] + b;
      SkipBreaksStops(a[1..], b);
    }
  }

  lemma {:induction false} UntilBreakStops(a: string, b: string)
    requires InLine(a)
    requires b != "" && IsBreak(b[0])
    ensures UntilBreak(a + b) == a
  {
    if a == "" {
      assert a + b == b;
    } else {
      assert (a + b)[1..] == a[1..] + b;
      UntilBreakStops(a[1..], b);
    }
  }

  lemma {:induction false} SkipSpacesStops(a: string, b: string)
    requires Blank(a) && (b == "" || !IsSpace(b[0]))
    ensures SkipSpaces(a + b) == b
  {
    if a == "" {
      assert a + b == b;
    } else {
      assert (a + b)[1..] == a[1..] + b;
      SkipSpacesStops(a[1..], b);
    }
  }

  lemma {:induction false} WordStops(a: string, b: string)
    requires forall i :: 0 <= i < |a| ==> !IsSpace(a[i])
    requires b == "" || IsSpace(b[0])
    ensures Word(a + b) == a
  {
    if a == "" {
      assert a + b == b;
    } else {
      assert (a + b)[1..] == a[1..] + b;
      WordStops(a[1..], b);
    }
  }

  lemma {:induction false} DigitsStop(a: string, b: string)
    requires Decimal.AllDigits(a) && (b == "" || !Decimal.IsDigit(b[0]))
    ensures Digits(a + b) == a
  {
    if a == "" {
      assert a + b == b;
    } else {
      assert (a + b)[1..] == a[1..] + b;
      DigitsStop(a[1..], b);
    }
  }

  // ---------------------------------------------------------------- sscanf

  lemma ScanNumeral(sign: string, digits: string, tail: string)
    requires sign == "" || sign == "+" || sign == "-"
    requires digits != "" && Decimal.AllDigits(digits) && (tail == "" || !Decimal.IsDigit(tail[0]))
    ensures ScanSize(sign + digits + tail) == Some(SizeRead(sign, Decimal.Value(digits)))
  {
    hide Decimal.Value, Digits;
    var s := sign + digits + tail;
    DigitsStop(digits, tail);
    assert s == sign + (digits + tail);
    assert (digits + tail)[0] == digits[0] && Decimal.IsDigit(digits[0]);
    if sign == "" {
      assert s == digits + tail;
    } else {
      assert s[0] == sign[0] && s[1..] == digits + tail;
    }
  }

  lemma ScanNothing(t: string)
    requires NotASize(t)
    ensures ScanSize(t) == None
  {
  }

  /** sscanf on a line that begins with the scheme and has a status word. */
  lemma ScanStatus(gap: string, word: string, pad: string, t: string)
    requires Blank(gap) && PlainWord(word) && Blank(pad) && (t == "" || (pad != "" && !IsSpace(t[0])))
    ensures ScanHeader("GETFILE" + gap + word + pad + t)
         == match ScanSize(t) { case Some(n) => Both(word, n) case None => WordOnly(word) }
  {
    var s := "GETFILE" + gap + word + pad + t;
    assert s[..7] == "GETFILE";
    assert s[7..] == gap + (word + (pad + t));
    SkipSpacesStops(gap, word + (pad + t));
    WordStops(word, pad + t);
    assert (word + (pad + t))[|word|..] == pad + t;
    SkipSpacesStops(pad, t);
  }

  lemma ScanNoStatus(gap: string)
    requires Blank(gap)
    ensures ScanHeader("GETFILE" + gap) == Neither
  {
    var s := "GETFILE" + gap;
    assert s[..7] == "GETFILE" && s[7..] == gap + "";
    SkipSpacesStops(gap, "");
  }

  // ---------------------------------------------------------------- the first line of a chunk

  /** The text up to the delimiter is what C sees of it. */
  lemma TextIs(lead: string, line: string, mid: string, rest: string)
    requires Breaks(lead) && InLine(line) && '\0' !in mid
    ensures CString(lead + line + mid + DELIMITER + rest) == lead + (line + (mid + (DELIMITER + CString(rest))))
  {
    hide CString;
    assert lead + line + mid + DELIMITER + rest == lead + (line + (mid + (DELIMITER + rest)));
    CStringKeeps(lead, line + (mid + (DELIMITER + rest)));
    CStringKeeps(line, mid + (DELIMITER + rest));
    CStringKeeps(mid, DELIMITER + rest);
    CStringKeeps(DELIMITER, rest);
  }

  lemma Found(text: string, before: string, needle: string, after: string)
    requires text == before + (needle + after)
    ensures Contains(text, needle)
  {
    assert text[|before|..|before| + |needle|] == needle;
    assert FoundAt(text, needle, |before|);
  }

  /** Line breaks before the first line are skipped, and everything from its first line break on is
      ignored, as long as the delimiter comes somewhere. */
  lemma FirstLine(lead: string, line: string, mid: string, rest: string)
    requires Breaks(lead) && line != "" && InLine(line)
    requires '\0' !in mid && (mid == "" || IsBreak(mid[0]))
    ensures var text := CString(lead + line + mid + DELIMITER + rest);
            && FirstToken(text) == line && Contains(text, DELIMITER)
            && ("GETFILE" <= line ==> Contains(text, "GETFILE"))
  {
    hide CString, SkipBreaks, UntilBreak, Contains, InLine, Breaks;
    TextIs(lead, line, mid, rest);
    var after := mid + (DELIMITER + CString(rest));
    assert (line + after)[0] == line[0];
    assert after[0] == if mid == "" then '\r' else mid[0];
    LineStarts(line);
    SkipBreaksStops(lead, line + after);
    UntilBreakStops(line, after);
    assert lead + (line + after) == (lead + line + mid) + (DELIMITER + CString(rest));
    Found(lead + (line + after), lead + line + mid, DELIMITER, CString(rest));
    if "GETFILE" <= line {
      assert lead + (line + after) == lead + ("GETFILE" + (line[7..] + after));
      Found(lead + (line + after), lead, "GETFILE", line[7..] + after);
    }
  }

  lemma LineStarts(line: string)
    requires line != "" && InLine(line)
    ensures !IsBreak(line[0])
  {
  }

  /** An answer that announces no length ends the transfer at once, whatever follows the status word:
      FILE_NOT_FOUND is a success without content, INVALID a failure, and any other word, OK included,
      an error of the server, which gfc_perform reports as 0. */
  lemma AnswerWithoutLength(lead: string, gap: string, word: string, pad: string, t: string, mid: string, rest: string,
                            more: seq<string>)
    requires Breaks(lead) && Blank(gap) && PlainWord(word) && |word| <= 15
    requires Blank(pad) && InLine(t) && NotASize(t) && (t != "" ==> pad != "")
    requires '\0' !in mid && (mid == "" || IsBreak(mid[0]))
    ensures var status := if word == "FILE_NOT_FOUND" then GfFileNotFound
                          else if word == "INVALID" then GfInvalid else GfError;
            Perform([lead + ("GETFILE" + gap + word + pad + t) + mid + DELIMITER + rest] + more)
            == Outcome(false, if word == "INVALID" then -1 else 0, status, 0, 0, "")
  {
    FirstLine(lead, "GETFILE" + gap + word + pad + t, mid, rest);
    ScanNothing(t);
    ScanStatus(gap, word, pad, t);
  }

  lemma Regroup(word: string, rest: string)
    ensures "" + ("GETFILE" + " " + word + " " + "") + "" + DELIMITER + rest == "GETFILE " + word + " \r\n\r\n" + rest
  {
    assert "GETFILE" + " " == "GETFILE ";
    assert " " + DELIMITER == " \r\n\r\n";
    assert "" + ("GETFILE" + " " + word + " " + "") + "" + DELIMITER + rest
        == ("GETFILE" + " ") + word + (" " + DELIMITER) + rest;
  }

  lemma ServersWords()
    ensures PlainWord("FILE_NOT_FOUND") && PlainWord("ERROR")
  {
  }

  /** What the repository's server sends for a missing file and for an error. */
  lemma ServersAnswer(word: string, rest: string, more: seq<string>)
    requires word == "FILE_NOT_FOUND" || word == "ERROR"
    ensures Perform(["GETFILE " + word + " \r\n\r\n" + rest] + more)
         == Outcome(false, 0, if word == "ERROR" then GfError else GfFileNotFound, 0, 0, "")
  {
    hide Perform, PlainWord;
    ServersWords();
    AnswerWithoutLength("", " ", word, " ", "", "", rest, more);
    Regroup(word, rest);
  }

  /** A length is accepted with OK alone: the announced length is the numeral as `%zu` reads it. */
  lemma AnswerWithLength(lead: string, gap: string, word: string, pad: string, sign: string, digits: string, t: string,
                         mid: string, rest: string)
    requires Breaks(lead) && Blank(gap) && PlainWord(word) && |word| <= 15
    requires Blank(pad) && pad != "" && (sign == "" || sign == "+" || sign == "-")
    requires digits != "" && Decimal.AllDigits(digits)
    requires InLine(t) && (t == "" || !Decimal.IsDigit(t[0]))
    requires '\0' !in mid && (mid == "" || IsBreak(mid[0]))
    ensures var first := lead + ("GETFILE" + gap + word + pad + (sign + digits + t)) + mid + DELIMITER + rest;
            && Reject(first) == (if word == "OK" then None else Some(GfInvalid))
            && Announced(first) == SizeRead(sign, Decimal.Value(digits))
  {
    FirstLine(lead, "GETFILE" + gap + word + pad + (sign + digits + t), mid, rest);
    ScanNumeral(sign, digits, t);
    ScanStatus(gap, word, pad, sign + digits + t);
  }

  // ---------------------------------------------------------------- chunks that are not a header

  /** Nothing at all is an error, which is reported as 0. */
  lemma NoAnswer(more: seq<string>)
    ensures Perform([]) == Perform([""] + more) == Outcome(false, 0, GfError, 0, 0, "")
  {
  }

  lemma OtherScheme(lead: string, line: string, mid: string, rest: string, more: seq<string>)
    requires Breaks(lead) && line != "" && InLine(line) && !("GETFILE" <= line)
    requires '\0' !in mid && (mid == "" || IsBreak(mid[0]))
    ensures Perform([lead + line + mid + DELIMITER + rest] + more) == Outcome(false, -1, GfInvalid, 0, 0, "")
  {
    FirstLine(lead, line, mid, rest);
  }

  lemma NoStatus(lead: string, gap: string, mid: string, rest: string, more: seq<string>)
    requires Breaks(lead) && Blank(gap)
    requires '\0' !in mid && (mid == "" || IsBreak(mid[0]))
    ensures Perform([lead + ("GETFILE" + gap) + mid + DELIMITER + rest] + more) == Outcome(false, -1, GfInvalid, 0, 0, "")
  {
    FirstLine(lead, "GETFILE" + gap, mid, rest);
    ScanNoStatus(gap);
  }

  predicate Occurs(s: string, i: nat, needle: string) {
    i + |needle| <= |s| && forall j :: 0 <= j < |needle| ==> s[i + j] == needle[j]
  }

  /** A first chunk without the delimiter, or without the scheme, is invalid. */
  lemma BothAreNeeded(first: string, more: seq<string>)
    requires first != ""
    requires (forall i :: !Occurs(first, i, "\r\n\r\n")) || (forall i :: !Occurs(first, i, "GETFILE"))
    ensures Reject(first) == Some(GfInvalid) && Perform([first] + more) == Outcome(false, -1, GfInvalid, 0, 0, "")
  {
    var text := CString(first);
    CStringIsPrefix(first);
    forall needle: string, i: nat | FoundAt(text, needle, i) ensures Occurs(first, i, needle) {
      forall j | 0 <= j < |needle| ensures first[i + j] == needle[j] {
        assert text[i..i + |needle|][j] == text[i + j];
      }
    }
  }

  /** The client looks no further than the first NUL. */
  lemma NothingBehindNul(a: string, b: string)
    requires '\0' !in a
    ensures Reject(a + "\0" + b) == Reject(a + "\0") && Announced(a + "\0" + b) == Announced(a + "\0") == Announced(a)
    ensures a != "" ==> Reject(a + "\0") == Reject(a)
  {
    assert a + "\0" + b == a + ("\0" + b) && a + "" == a;
    CStringKeeps(a, "\0" + b);
    CStringKeeps(a, "\0");
    CStringKeeps(a, "");
  }

  // ---------------------------------------------------------------- headers as the servers write them

  function Line(n: nat, pad: string): string { "GETFILE OK " + Decimal.Print(n) + pad }

  lemma LineIsOne(n: nat, pad: string)
    requires pad == "" || pad == " "
    ensures InLine(Line(n, pad))
  {
    forall i | 0 <= i < |Decimal.Print(n)| ensures InLine([Decimal.Print(n)[i]]) {
      assert Decimal.IsDigit(Decimal.Print(n)[i]);
    }
    var s := Line(n, pad);
    var head := "GETFILE OK ";
    forall i | 0 <= i < |s| ensures s[i] != '\r' && s[i] != '\n' && s[i] != '\0' {
      if i < |head| {
        assert s[i] == head[i];
      } else if i < |head| + |Decimal.Print(n)| {
        assert s[i] == [Decimal.Print(n)[i - |head|]][0];
      } else {
        assert s[i] == pad[i - |head| - |Decimal.Print(n)|];
      }
    }
  }

  lemma OkIsPlain()
    ensures PlainWord("OK")
  {
  }

  /** A chunk that starts with a whole header, with or without a space before the line breaks,
      is accepted with the length it announces. */
  lemma HeaderIsAccepted(n: nat, pad: string, rest: string)
    requires n < SIZE_LIMIT && (pad == "" || pad == " ")
    ensures Reject(Line(n, pad) + DELIMITER + rest) == None
    ensures Announced(Line(n, pad) + DELIMITER + rest) == n
  {
    hide Reject, Announced, Decimal.Print, Decimal.Value, PlainWord;
    OkIsPlain();
    AnswerWithLength("", " ", "OK", " ", "", Decimal.Print(n), pad, "", rest);
    Decimal.ValueOfPrint(n);
    assert "GETFILE" + " " + "OK" + " " == "GETFILE OK ";
    assert "" + ("GETFILE" + " " + "OK" + " " + ("" + Decimal.Print(n) + pad)) + "" == Line(n, pad);
  }

  /** A proper prefix of a header lacks the delimiter, so the client calls it invalid. */
  lemma PartialHeaderIsRejected(n: nat, pad: string, k: nat)
    requires pad == "" || pad == " "
    requires 0 < k < |Line(n, pad) + DELIMITER|
    ensures Reject((Line(n, pad) + DELIMITER)[..k]) == Some(GfInvalid)
  {
    var line := Line(n, pad);
    var first := (line + DELIMITER)[..k];
    LineIsOne(n, pad);
    forall i: nat | i + 4 <= |first| ensures !Occurs(first, i, "\r\n\r\n") {
      assert first[i + 0] == line[i] && "\r\n\r\n"[0] == '\r';
    }
    BothAreNeeded(first, []);
  }
}
