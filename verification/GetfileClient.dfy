/** The client's receive loop (gfc_perform).  A `char` stands for a C char; `chunks` are the
    results of the successive `recv` calls, after which the server has closed and `recv` keeps
    returning 0. */
module GetfileClient {
  import opened Basics
  import Decimal

  datatype Status = GfOk | GfFileNotFound | GfError | GfInvalid

  const SIZE_LIMIT: nat := 0x1_0000_0000_0000_0000
  const DELIMITER := "\r\n\r\n"

  // ---------------------------------------------------------------- C string functions

  function CString(buffer: string): string {
    if buffer == [] || buffer[0] == '\0' then [] else [buffer[0]] + CString(buffer[1..])
  }

  /** strstr(hay, needle) != NULL */
  predicate Contains(hay: string, needle: string) {
    exists i :: 0 <= i <= |hay| && FoundAt(hay, needle, i)
  }

  predicate FoundAt(hay: string, needle: string, i: nat) {
    i + |needle| <= |hay| && hay[i..i + |needle|] == needle
  }

  predicate IsBreak(c: char) { c == '\r' || c == '\n' }

  function SkipBreaks(s: string): string {
    if s != [] && IsBreak(s[0]) then SkipBreaks(s[1..]) else s
  }

  function UntilBreak(s: string): string {
    if s == [] || IsBreak(s[0]) then [] else [s[0]] + UntilBreak(s[1..])
  }

  /** strtok(s, "\r\n\r\n"): the first token between line breaks; empty stands for NULL. */
  function FirstToken(s: string): string {
    UntilBreak(SkipBreaks(s))
  }

  predicate IsSpace(c: char) {
    c == ' ' || c == '\t' || c == '\n' || c == '\r' || c == '\U{0B}' || c == '\U{0C}'
  }

  function SkipSpaces(s: string): string {
    if s != [] && IsSpace(s[0]) then SkipSpaces(s[1..]) else s
  }

  /** What `%s` takes. */
  function Word(s: string): string {
    if s == [] || IsSpace(s[0]) then [] else [s[0]] + Word(s[1..])
  }

  function Digits(s: string): (ds: string)
    ensures Decimal.AllDigits(ds) && |ds| <= |s|
  {
    if s == [] || !Decimal.IsDigit(s[0]) then [] else [s[0]] + Digits(s[1..])
  }

  /** What `%zu` stores: values that do not fit saturate, and a minus sign negates modulo 2^64. */
  function ScanSize(s: string): Option<nat> {
    var negative := s != [] && s[0] == '-';
    var t := if s != [] && (s[0] == '-' || s[0] == '+') then s[1..] else s;
    var ds := Digits(t);
    if ds == [] then None
    else
      var v := Decimal.Value(ds);
      if v >= SIZE_LIMIT then Some(SIZE_LIMIT - 1)
      else if negative then Some((SIZE_LIMIT - v) % SIZE_LIMIT)
      else Some(v)
  }

  datatype Scan = Both(word: string, len: nat) | WordOnly(word: string) | Neither

  /** sscanf(s, "GETFILE %s %zu\r\n\r\n", ...), falling back on the format without length. */
  function ScanHeader(s: string): Scan {
    if !("GETFILE" <= s) then Neither
    else
      var t := SkipSpaces(s[7..]);
      var word := Word(t);
      if word == [] then Neither
      else match ScanSize(SkipSpaces(t[WordFits(t)..]))
           case Some(len) => Both(word, len)
           case None => WordOnly(word)
  }

  function WordFits(t: string): (n: nat)
    ensures n <= |t|
  {
    WordIsPrefix(t);
    |Word(t)|
  }

  lemma {:induction false} WordIsPrefix(t: string)
    ensures Word(t) <= t
  {
    if t == [] || IsSpace(t[0]) {
    } else {
      WordIsPrefix(t[1..]);
    }
  }

  // ---------------------------------------------------------------- the receive loop

  /** get_return_code */
  function ReturnCode(status: Status, received: nat, length: nat): int {
    if status == GfError || status == GfFileNotFound || (status == GfOk && received == length) then 0 else -1
  }

  /** `spins` means that the loop never ends: the server has closed, and the number of bytes
      received has passed the announced length without ever being equal to it. */
  datatype Outcome = Outcome(
    spins: bool, code: int, status: Status, received: int, length: nat, written: string)

  function Stop(status: Status, received: nat, length: nat, written: string): Outcome {
    Outcome(false, ReturnCode(status, received, length), status, received, length, written)
  }

  function Canonical(word: string, n: nat): string {
    "GETFILE " + word + " " + Decimal.Print(n) + DELIMITER
  }

  /** The text that the client rebuilds and whose length it takes for that of the header. */
  function Header(n: nat): string { Canonical("OK", n) }

  /** The statuses of an answer without content; None if the loop goes on with `len`. */
  function Reject(first: string): Option<Status> {
    var text := CString(first);
    if first == [] then Some(GfError)
    else if !Contains(text, "GETFILE") || !Contains(text, DELIMITER) then Some(GfInvalid)
    else match ScanHeader(FirstToken(text))
         case Both(word, _) => if word == "OK" then None else Some(GfInvalid)
         case WordOnly(word) =>
           if word == "FILE_NOT_FOUND" then Some(GfFileNotFound)
           else if word == "INVALID" then Some(GfInvalid) else Some(GfError)
         case Neither => Some(GfInvalid)
  }

  /** The announced length of an accepted first chunk. */
  function Announced(first: string): nat {
    match ScanHeader(FirstToken(CString(first)))
    case Both(_, len) => len
    case _ => 0
  }

  class Request {
    var status: Status
    var bytesReceived: nat
    var fileLength: nat
    /** What `write_func` has been given so far. */
    var written: string

    /** gfc_create */
    constructor ()
      ensures status == GfInvalid && bytesReceived == 0 && fileLength == 0 && written == ""
    {
      status, bytesReceived, fileLength, written := GfInvalid, 0, 0, "";
    }

    /** The loop of gfc_perform, from the first `recv` on.  A first chunk shorter than the text
        the client rebuilds makes C subtract below zero; `short` reports it. */
    method Receive(chunks: seq<string>) returns (code: int, spins: bool, short: bool)
      requires status == GfInvalid && bytesReceived == 0 && fileLength == 0 && written == ""
      modifies this
      ensures short <==> TooShort(chunks)
      ensures !short ==> Outcome(spins, code, status, bytesReceived, fileLength, written) == Perform(chunks)
    {
      var headerReceived := false;
      var len := 0;
      var i := 0;
      code, spins, short := 0, false, false;
      while true
        invariant 0 <= i <= |chunks|
        invariant !headerReceived ==> i == 0 && status == GfInvalid && bytesReceived == 0 && fileLength == 0 && written == ""
        invariant headerReceived ==> !TooShort(chunks) && status == GfOk && fileLength == len
        invariant headerReceived ==> bytesReceived != len
        invariant headerReceived ==> Perform(chunks) == Continue(chunks[i..], len, bytesReceived, written)
        decreases |chunks| - i, !headerReceived
      {
        var buffer := if i < |chunks| then chunks[i] else "";
        if !headerReceived {
          var text := CString(buffer);
          if |buffer| == 0 {
            status := GfError;
            break;
          }
          if !Contains(text, "GETFILE") || !Contains(text, DELIMITER) {
            status := GfInvalid;
            break;
          }
          var token := FirstToken(text);
          if token == "" {
            status := GfInvalid;
            break;
          }
          match ScanHeader(token) {
            case Both(word, n) =>
              headerReceived := true;
              len := n;
              if word == "OK" {
                status := GfOk;
                fileLength := n;
              } else {
                status := GfInvalid;
                break;
              }
            case WordOnly(word) =>
              status := if word == "FILE_NOT_FOUND" then GfFileNotFound else if word == "INVALID" then GfInvalid else GfError;
              break;
            case Neither =>
              status := GfInvalid;
              break;
          }
          var header := Header(fileLength);
          if |buffer| < |header| {
            short := true;
            return;
          }
          bytesReceived := bytesReceived + (|buffer| - |header|);
          assert written + buffer[|header|..] == buffer[|header|..];
          written := written + buffer[|header|..];
          i := 1;
        } else {
          if |buffer| == 0 && bytesReceived < len {
            status := GfOk;
            break;
          }
          if i >= |chunks| {
            // every further recv returns 0, and the length has been passed
            spins := true;
            return;
          }
          assert chunks[i..][1..] == chunks[i + 1..];
          written := written + buffer;
          bytesReceived := bytesReceived + |buffer|;
          i := i + 1;
        }
        if len == bytesReceived {
          break;
        }
      }
      code := ReturnCode(status, bytesReceived, fileLength);
    }
  }

  predicate TooShort(chunks: seq<string>) {
    chunks != [] && Reject(chunks[0]) == None && |chunks[0]| < |Header(Announced(chunks[0]))|
  }

  /** The loop once the header has been recognised. */
  function Continue(chunks: seq<string>, len: nat, received: nat, written: string): Outcome {
    if received == len then Stop(GfOk, received, len, written)
    else if chunks == [] then
      if received < len then Stop(GfOk, received, len, written)
      else Outcome(true, 0, GfOk, received, len, written)
    else if chunks[0] == "" && received < len then Stop(GfOk, received, len, written)
    else Continue(chunks[1..], len, received + |chunks[0]|, written + chunks[0])
  }

  function Perform(chunks: seq<string>): Outcome {
    var first := if chunks == [] then "" else chunks[0];
    match Reject(first)
    case Some(status) => Stop(status, 0, 0, "")
    case None =>
      var len := Announced(first);
      var h := |Header(len)|;
      if |first| < h then Stop(GfInvalid, 0, 0, "")
      else Continue(chunks[1..], len, |first| - h, first[h..])
  }
}
