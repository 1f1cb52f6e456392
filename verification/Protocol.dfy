/** The handshake line of a data connection (internal/tunnel/protocol.go) and the reading of it. */
module Protocol {
  import opened Common
  import opened Decimal

  const UINT64_SIZE: nat := 0x1_0000_0000_0000_0000  // one above the largest uint64

  const DATA_PREFIX := "DATA "

  function DataHeader(connID: nat): string {
    DATA_PREFIX + Print(connID) + "\n"
  }

  /** As the code does, this drops as many characters as the prefix has without looking at them. */
  function ParseDataHeader(line: string): Option<nat> {
    if |line| < |DATA_PREFIX| + 1 then None else ScanUint(line[|DATA_PREFIX|..], UINT64_SIZE)
  }

  lemma HeaderRoundTrip(n: nat)
    requires n < UINT64_SIZE
    ensures ParseDataHeader(DataHeader(n)) == Some(n)
  {
    ValueOfPrint(n);
    assert DataHeader(n)[|DATA_PREFIX|..] == Print(n) + "\n";
    ScanUintOfPrint(n, "\n", UINT64_SIZE);
  }

  /** A header is "DATA ", digits and one newline, its last character, so a line reader stops just behind it. */
  lemma HeaderIsOneLine(n: nat)
    ensures var h := DataHeader(n);
            && |h| > 6 && h[..5] == "DATA " && AllDigits(h[5..|h| - 1])
            && forall i | 0 <= i < |h| :: h[i] == '\n' <==> i == |h| - 1
  {
    ValueOfPrint(n);
    var h := DataHeader(n);
    assert h[5..|h| - 1] == Print(n);
    forall i | 0 <= i < |h| ensures h[i] == '\n' <==> i == |h| - 1 {
      if |DATA_PREFIX| <= i < |h| - 1 {
        assert h[i] == Print(n)[i - |DATA_PREFIX|];
      }
    }
  }

  lemma HeaderInjective(m: nat, n: nat)
    requires DataHeader(m) == DataHeader(n)
    ensures m == n
  {
    var h := DataHeader(m);
    assert h[|DATA_PREFIX|..|h| - 1] == Print(m);
    assert h[|DATA_PREFIX|..|h| - 1] == Print(n);
    PrintInjective(m, n);
  }

  /** The parser accepts more than the printer makes: exactly the lines with a number after any five characters. */
  lemma ParseAccepts(line: string, n: nat)
    ensures ParseDataHeader(line) == Some(n) <==>
            |line| > 5 && n < UINT64_SIZE &&
            exists run: string :: run != "" && AllDigits(run) && Value(run) == n && run <= SkipBlanks(line[5..]) &&
                          (run == SkipBlanks(line[5..]) || !IsDigit(SkipBlanks(line[5..])[|run|]))
  {
    if |line| > 5 {
      var t := SkipBlanks(line[5..]);
      forall run: string | AllDigits(run) && run <= t && (run == t || !IsDigit(t[|run|]))
        ensures run == DigitRun(t)
      {
        assert t == run + t[|run|..];
        DigitRunStops(run, t[|run|..]);
      }
    }
  }

  // ---- Reading through bufio.Reader --------------------------------------

  function Concat(chunks: seq<string>): string {
    if chunks == [] then "" else chunks[0] + Concat(chunks[1..])
  }

  /** The part of `s` up to and including its first newline, if it has one. */
  function FirstLine(s: string): Option<string> {
    if s == "" then None
    else if s[0] == '\n' then Some("\n")
    else match FirstLine(s[1..])
      case None => None
      case Some(l) => Some([s[0]] + l)
  }

  lemma {:induction false} FirstLineIs(line: string, rest: string)
    requires line != ""
    requires forall i | 0 <= i < |line| :: line[i] == '\n' <==> i == |line| - 1
    ensures FirstLine(line + rest) == Some(line)
    decreases |line|
  {
    if |line| > 1 {
      assert (line + rest)[1..] == line[1..] + rest;
      FirstLineIs(line[1..], rest);
      assert [line[0]] + line[1..] == line;
    } else {
      assert line == "\n";
    }
  }

  lemma FirstLineAtNewline(s: string)
    requires s != "" && s[0] == '\n'
    ensures FirstLine(s) == Some("\n")
  {
  }

  lemma NoLineIn(s: string)
    requires s == ""
    ensures FirstLine(s) == None
  {
  }

  lemma {:induction false} NoNewlineYet(head: string, tail: string)
    requires '\n' !in head
    ensures FirstLine(head + tail) ==
            match FirstLine(tail) case None => None case Some(l) => Some(head + l)
  {
    if head == "" {
      assert forall l: string :: head + l == l;
    } else {
      assert (head + tail)[1..] == head[1..] + tail;
      NoNewlineYet(head[1..], tail);
      assert forall l: string :: [head[0]] + (head[1..] + l) == head + l;
    }
  }

  /**
   * A data connection behind a buffered reader: bytes already fetched, then the chunks the
   * network will still deliver before end of stream.
   */
  class Reader {
    var buffer: string
    var chunks: seq<string>

    ghost function Unread(): string
      reads this
    {
      buffer + Concat(chunks)
    }

    constructor (stream: seq<string>)
      ensures Unread() == Concat(stream)
    {
      buffer, chunks := "", stream;
    }

    /** Fetches chunks until there is something to read or the stream has ended. */
    method Fill()
      modifies this
      ensures Unread() == old(Unread())
      ensures buffer == "" ==> Unread() == ""
    {
      while buffer == "" && chunks != []
        invariant Unread() == old(Unread())
        decreases |chunks|
      {
        buffer, chunks := chunks[0], chunks[1..];
      }
    }

    /** `ReadString('\n')`: the next line, or `None` at end of stream. */
    method ReadLine() returns (line: Option<string>)
      modifies this
      ensures line == FirstLine(old(Unread()))
      ensures line.Some? ==> old(Unread()) == line.value + Unread()
    {
      hide FirstLine, Concat;
      ghost var all := Unread();
      var taken := "";
      while true
        invariant '\n' !in taken
        invariant all == taken + Unread()
        decreases |Unread()|
      {
        Fill();
        ghost var rest := Unread();
        NoNewlineYet(taken, rest);
        if buffer == "" {
          NoLineIn(rest);
          return None;
        }
        var c := buffer[0];
        buffer := buffer[1..];
        assert rest == [c] + Unread();
        if c == '\n' {
          FirstLineAtNewline(rest);
          return Some(taken + "\n");
        }
        assert taken + rest == (taken + [c]) + Unread();
        taken := taken + [c];
      }
    }

    /** `bridgeConn.Read`: what is buffered first, at most `max` bytes; `None` at end of stream. */
    method Read(max: nat) returns (got: Option<string>)
      requires max > 0
      modifies this
      ensures got.None? ==> old(Unread()) == "" && Unread() == ""
      ensures got.Some? ==> 0 < |got.value| <= max && old(Unread()) == got.value + Unread()
    {
      Fill();
      if buffer == "" {
        return None;
      }
      var n := if |buffer| < max then |buffer| else max;
      got := Some(buffer[..n]);
      assert buffer == buffer[..n] + buffer[n..];
      buffer := buffer[n..];
    }
  }

  /** `openData` from the accepted data connection on: is this the connection dialled for `connID`? */
  method CheckHandshake(r: Reader, connID: nat) returns (ok: bool)
    modifies r
    ensures var line := FirstLine(old(r.Unread()));
            && ok == (line.Some? && ParseDataHeader(line.value) == Some(connID))
            && (line.Some? ==> old(r.Unread()) == line.value + r.Unread())
  {
    var line := r.ReadLine();
    if line == None {
      return false;
    }
    var id := ParseDataHeader(line.value);
    return id == Some(connID);
  }

  /**
   * Framing loses nothing: however the network cuts header and payload into chunks, and whatever read
   * sizes the relay asks for, the handshake is recognised and the relay then reads exactly the payload.
   */
  method Handshake(stream: seq<string>, connID: nat, ghost payload: string, sizes: nat -> nat)
    returns (ok: bool, delivered: string)
    requires forall i :: sizes(i) > 0
    requires connID < UINT64_SIZE
    requires Concat(stream) == DataHeader(connID) + payload
    ensures ok && delivered == payload
  {
    var r := new Reader(stream);
    HeaderIsOneLine(connID);
    FirstLineIs(DataHeader(connID), payload);
    HeaderRoundTrip(connID);
    ok := CheckHandshake(r, connID);
    delivered := "";
    assert r.Unread() == payload by {
      var h := DataHeader(connID);
      assert (h + payload)[|h|..] == payload;
      assert (h + r.Unread())[|h|..] == r.Unread();
    }
    var more, turn := true, 0;
    while more
      invariant delivered + r.Unread() == payload
      invariant !more ==> r.Unread() == ""
      decreases |r.Unread()|, more
    {
      ghost var before := r.Unread();
      var got := r.Read(sizes(turn));
      turn := turn + 1;
      match got {
        case None =>
          more := false;
        case Some(bytes) =>
          assert delivered + before == (delivered + bytes) + r.Unread();
          delivered := delivered + bytes;
      }
    }
  }
}
