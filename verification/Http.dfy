/**
 HTTP/1.1 framing over a socket that reads and writes in pieces of any size. A message is a
 head, which ends at the first empty line, and a body of the length that the head declares
 (sections 2.1 and 6.2 of RFC 9112).
 */
module Http {
  import opened Bytes
  import opened Wrappers

  const TAB: byte := 9
  const LF: byte := 10
  const CR: byte := 13
  const SPACE: byte := 32
  const PLUS: byte := 43
  const MINUS: byte := 45
  const COLON: byte := 58
  const QUESTION: byte := 63

  const CRLF: Bytes := [13, 10]
  const EMPTY_LINE: Bytes := [13, 10, 13, 10]

  /** content-length */
  const CONTENT_LENGTH: Bytes := [99, 111, 110, 116, 101, 110, 116, 45, 108, 101, 110, 103, 116, 104]

  const MAX_HEADER_SIZE: nat := 65_536
  const MAX_BODY_SIZE: nat := 8_388_608

  const ULONG: int := 0x1_0000_0000_0000_0000

  /** `verb` is the request method. */
  datatype Request = Request(verb: Bytes, path: Bytes, query: Bytes, headers: map<Bytes, Bytes>, body: Bytes)

  // ---------- the end of the head ----------

  predicate EndsHead(s: Bytes) {
    |s| >= 4 && s[|s| - 4..] == EMPTY_LINE
  }

  /** The length of the head, when the first `n` bytes do not hold it. */
  function HeadFrom(s: Bytes, n: nat): Option<nat>
    requires n <= |s|
    decreases |s| - n
  {
    if n >= MAX_HEADER_SIZE || n == |s| then None
    else if EndsHead(s[..n + 1]) then Some(n + 1)
    else HeadFrom(s, n + 1)
  }

  function HeadLength(s: Bytes): Option<nat> {
    HeadFrom(s, 0)
  }

  predicate IsHead(s: Bytes, h: nat) {
    && h <= |s| && h <= MAX_HEADER_SIZE && EndsHead(s[..h])
    && forall j :: 0 <= j < h ==> !EndsHead(s[..j])
  }

  lemma {:induction false} HeadFromIsShortest(s: Bytes, n: nat)
    requires n <= |s| && n <= MAX_HEADER_SIZE && forall j :: 0 <= j <= n ==> !EndsHead(s[..j])
    ensures HeadFrom(s, n).Some? ==> IsHead(s, HeadFrom(s, n).value)
    ensures HeadFrom(s, n).None? ==> forall h: nat :: !IsHead(s, h)
    decreases |s| - n
  {
    if n < MAX_HEADER_SIZE && n < |s| && !EndsHead(s[..n + 1]) {
      HeadFromIsShortest(s, n + 1);
    }
  }

  /** The head is the shortest prefix with an empty line at its end, if there is one of at most 64 KiB. */
  lemma HeadIsShortest(s: Bytes, h: nat)
    ensures HeadLength(s) == Some(h) <==> IsHead(s, h)
  {
    HeadFromIsShortest(s, 0);
    if HeadLength(s).Some? && IsHead(s, h) {
      var k := HeadLength(s).value;
      assert h == k || h < k || k < h;
    }
  }

  // ---------- the head's text ----------

  function IndexOf(s: Bytes, c: byte): (k: nat)
    ensures k <= |s|
  {
    if s == [] || s[0] == c then 0 else 1 + IndexOf(s[1..], c)
  }

  /** What std::getline gives, call by call: nothing for an empty rest. */
  function Lines(s: Bytes): seq<Bytes>
    decreases |s|
  {
    if s == [] then []
    else
      var k := IndexOf(s, LF);
      if k == |s| then [s] else [s[..k]] + Lines(s[k + 1..])
  }

  function StripCr(line: Bytes): Bytes {
    if line != [] && line[|line| - 1] == CR then line[..|line| - 1] else line
  }

  predicate IsSpace(c: byte) {
    c == SPACE || TAB <= c <= CR
  }

  function SkipSpaces(s: Bytes): (r: Bytes)
    ensures |r| <= |s|
  {
    if s != [] && IsSpace(s[0]) then SkipSpaces(s[1..]) else s
  }

  function WordLength(s: Bytes): (k: nat)
    ensures k <= |s|
  {
    if s == [] || IsSpace(s[0]) then 0 else 1 + WordLength(s[1..])
  }

  /** What `>>` gives into a string, call by call. */
  function Words(s: Bytes): seq<Bytes>
    decreases |s|
  {
    var t := SkipSpaces(s);
    if t == [] then [] else
      var k := WordLength(t);
      if k == 0 then [] else [t[..k]] + Words(t[k..])
  }

  function ToLowerByte(c: byte): byte {
    if 65 <= c <= 90 then c + 32 else c
  }

  function ToLower(s: Bytes): (r: Bytes)
    ensures |r| == |s|
  {
    if s == [] then [] else [ToLowerByte(s[0])] + ToLower(s[1..])
  }

  /** Index of the first byte that is neither space nor tab, or the length. */
  function FirstInk(s: Bytes): (k: nat)
    ensures k <= |s|
  {
    if s == [] || (s[0] != SPACE && s[0] != TAB) then 0 else 1 + FirstInk(s[1..])
  }

  /** One past the last byte that is no space, tab, CR or LF, or 0. */
  function LastInk(s: Bytes): (k: nat)
    ensures k <= |s|
  {
    if s == [] then 0
    else
      var c := s[|s| - 1];
      if c == SPACE || c == TAB || c == CR || c == LF then LastInk(s[..|s| - 1]) else |s|
  }

  lemma {:induction false} LastInkIsInk(s: Bytes)
    ensures LastInk(s) > 0 ==> s[LastInk(s) - 1] != SPACE && s[LastInk(s) - 1] != TAB
  {
    if s == [] {
    } else {
      LastInkIsInk(s[..|s| - 1]);
    }
  }

  lemma {:induction false} FirstInkIsFirst(s: Bytes)
    ensures forall j :: 0 <= j < FirstInk(s) ==> s[j] == SPACE || s[j] == TAB
  {
    if s == [] || (s[0] != SPACE && s[0] != TAB) {
    } else {
      FirstInkIsFirst(s[1..]);
      assert forall j :: 1 <= j < |s| ==> s[j] == s[1..][j - 1];
    }
  }

  lemma InkInOrder(s: Bytes)
    ensures LastInk(s) > 0 ==> FirstInk(s) < LastInk(s)
  {
    LastInkIsInk(s);
    FirstInkIsFirst(s);
  }

  /**
   The length `end - start + 1` wraps around when there is no last byte to find: it is then 0
   for a start at 0, and more than the rest of the text otherwise.
   */
  function Trim(s: Bytes): Bytes {
    var first, last := FirstInk(s), LastInk(s);
    if first == |s| then []
    else if last == 0 then (if first == 0 then [] else s[first..])
    else
      InkInOrder(s);
      s[first..last]
  }

  function WithField(headers: map<Bytes, Bytes>, line: Bytes): map<Bytes, Bytes> {
    var l := StripCr(line);
    var colon := IndexOf(l, COLON);
    if l == [] || colon == |l| then headers
    else headers[ToLower(l[..colon]) := Trim(l[colon + 1..])]
  }

  function WithFields(headers: map<Bytes, Bytes>, lines: seq<Bytes>): map<Bytes, Bytes>
    decreases |lines|
  {
    if lines == [] then headers else WithFields(WithField(headers, lines[0]), lines[1..])
  }

  function RequestOf(head: Bytes): Option<Request> {
    var lines := Lines(head);
    if lines == [] then None
    else
      var words := Words(StripCr(lines[0]));
      if |words| < 3 then None
      else
        var target := words[1];
        var mark := IndexOf(target, QUESTION);
        Some(Request(words[0],
                     target[..mark],
                     if mark == |target| then [] else target[mark + 1..],
                     WithFields(map[], lines[1..]),
                     []))
  }

  // ---------- the length of the body ----------

  predicate IsDigit(c: byte) {
    48 <= c <= 57
  }

  function DigitsLength(s: Bytes): (k: nat)
    ensures k <= |s| && forall j :: 0 <= j < k ==> IsDigit(s[j])
  {
    if s == [] || !IsDigit(s[0]) then 0 else 1 + DigitsLength(s[1..])
  }

  function Decimal(digits: Bytes): nat
    requires forall c | c in digits :: IsDigit(c)
  {
    if digits == [] then 0
    else
      var last: int := digits[|digits| - 1];
      assert IsDigit(last);
      10 * Decimal(digits[..|digits| - 1]) + (last - 48)
  }

  /** std::stoul: leading space, a sign, digits; a minus sign counts down from 2^64. None is an exception. */
  function Stoul(s: Bytes): Option<nat> {
    var t := SkipSpaces(s);
    var signed := t != [] && (t[0] == PLUS || t[0] == MINUS);
    var u := if signed then t[1..] else t;
    var k := DigitsLength(u);
    if k == 0 then None
    else
      var n := Decimal(u[..k]);
      if n >= ULONG then None
      else if signed && t[0] == MINUS then Some((ULONG - n) % ULONG)
      else Some(n)
  }

  /** None: the request is given up. */
  function BodyLength(headers: map<Bytes, Bytes>): Option<nat> {
    if CONTENT_LENGTH !in headers then Some(0)
    else
      match Stoul(headers[CONTENT_LENGTH])
      case None => None
      case Some(n) => if n > MAX_BODY_SIZE then None else Some(n)
  }

  // ---------- a whole request ----------

  datatype Reading = Reading(request: Option<Request>, consumed: nat)

  function Min(a: nat, b: nat): nat {
    if a <= b then a else b
  }

  /** What is read from a stream, and how much of it. */
  function Read(s: Bytes): Reading {
    match HeadLength(s)
    case None => Reading(None, Min(|s|, MAX_HEADER_SIZE))
    case Some(h) =>
      HeadIsShortest(s, h);
      var parsed := RequestOf(s[..h]);
      if parsed.None? then Reading(None, h)
      else
        match BodyLength(parsed.value.headers)
        case None => Reading(None, h)
        case Some(n) =>
          if |s| - h < n then Reading(None, |s|)
          else Reading(Some(parsed.value.(body := s[h..h + n])), h + n)
  }

  /** A request that is read takes its head and as many bytes more as the head declares. */
  lemma RequestIsFramed(s: Bytes)
    requires Read(s).request.Some?
    ensures var (req, n) := (Read(s).request.value, Read(s).consumed);
      exists h: nat ::
        && IsHead(s, h) && BodyLength(req.headers).Some? && n == h + BodyLength(req.headers).value <= |s|
        && req.body == s[h..n] && |req.body| <= MAX_BODY_SIZE
  {
    var h := HeadLength(s).value;
    HeadIsShortest(s, h);
    assert IsHead(s, h);
  }

  lemma SameHead(s: Bytes, t: Bytes, h: nat)
    requires IsHead(s, h) && h <= |t| && t[..h] == s[..h]
    ensures HeadLength(t) == Some(h)
  {
    forall j | 0 <= j < h ensures !EndsHead(t[..j]) {
      assert t[..j] == t[..h][..j] == s[..h][..j] == s[..j];
    }
    HeadIsShortest(t, h);
  }

  /** What follows a request on the stream has no effect on it, and nothing shorter is a request. */
  lemma RequestIsPrefixFree(s: Bytes, more: Bytes, k: nat)
    requires Read(s).request.Some? && k < Read(s).consumed
    ensures Read(s).consumed <= |s|
    ensures Read(s[..Read(s).consumed] + more) == Read(s)
    ensures Read(s[..k]).request.None?
  {
    hide RequestOf;
    var n, h := Read(s).consumed, HeadLength(s).value;
    HeadIsShortest(s, h);
    var t := s[..n] + more;
    assert t[..h] == s[..h] && t[h..n] == s[h..n];
    SameHead(s, t, h);
    var u := s[..k];
    if HeadLength(u).Some? {
      var g := HeadLength(u).value;
      HeadIsShortest(u, g);
      assert u[..g] == s[..g];
      SameHead(u, s, g);
      assert u[..h] == s[..h];
    }
  }

  // ---------- the socket ----------

  /**
   A connection: what will arrive on it before it ends or fails, how much it takes before it
   fails, and the sizes of the pieces, which nothing is known about.
   */
  class Socket {
    const incoming: Bytes
    const accepts: nat
    const pieces: nat -> nat
    var position: nat
    var outgoing: Bytes
    var calls: nat

    ghost predicate Valid()
      reads this
    {
      position <= |incoming| && |outgoing| <= accepts
    }

    ghost function Rest(): Bytes
      reads this
      requires Valid()
    {
      incoming[position..]
    }

    constructor (incoming: Bytes, accepts: nat, pieces: nat -> nat)
      ensures Valid() && Rest() == incoming && outgoing == [] && this.accepts == accepts
    {
      this.incoming, this.accepts, this.pieces := incoming, accepts, pieces;
      position, outgoing, calls := 0, [], 0;
    }

    /** At most `max` bytes into the buffer; 0 at the end. */
    method Receive(buffer: array<byte>, from: nat, max: nat) returns (n: nat)
      requires Valid() && max > 0 && from + max <= buffer.Length
      modifies this`position, this`calls, buffer
      ensures Valid() && n <= max && position == old(position) + n
      ensures n == 0 <==> old(Rest()) == []
      ensures buffer[from..from + n] == old(Rest())[..n] && Rest() == old(Rest())[n..]
      ensures buffer[..from] == old(buffer[..from])
    {
      n := Min(Min(max, |incoming| - position), 1 + pieces(calls));
      calls := calls + 1;
      forall i | 0 <= i < n {
        buffer[from + i] := incoming[position + i];
      }
      position := position + n;
    }

    /** Takes a piece of the data from an offset; 0 when it fails. */
    method Send(data: Bytes, from: nat) returns (n: nat)
      requires Valid() && from < |data|
      modifies this`outgoing, this`calls
      ensures Valid() && from + n <= |data|
      ensures outgoing == old(outgoing) + data[from..from + n]
      ensures n == 0 <==> |old(outgoing)| == accepts
    {
      n := Min(Min(|data| - from, accepts - |outgoing|), 1 + pieces(calls));
      calls := calls + 1;
      outgoing := outgoing + data[from..from + n];
    }
  }

  method ReadUntilDoubleCrlf(sock: Socket) returns (head: Option<Bytes>)
    requires sock.Valid()
    modifies sock`position, sock`calls
    ensures sock.Valid()
    ensures var s := old(sock.Rest());
      match HeadLength(s)
      case Some(h) => h <= |s| && head == Some(s[..h]) && sock.position == old(sock.position) + h
      case None => head == None && sock.position == old(sock.position) + Min(|s|, MAX_HEADER_SIZE)
  {
    ghost var s := sock.Rest();
    var c := new byte[1];
    var buf: Bytes := [];
    while |buf| < MAX_HEADER_SIZE
      invariant sock.Valid() && |buf| <= |s| && |buf| <= MAX_HEADER_SIZE && buf == s[..|buf|]
      invariant sock.position == old(sock.position) + |buf| && sock.Rest() == s[|buf|..]
      invariant HeadFrom(s, |buf|) == HeadLength(s)
    {
      var n := sock.Receive(c, 0, 1);
      if n == 0 {
        return None;
      }
      assert c[..][0] == s[|buf|..][..1][0];
      ghost var k := |buf|;
      buf := buf + [c[0]];
      assert buf == s[..k + 1];
      if |buf| >= 4 && buf[|buf| - 4..] == EMPTY_LINE {
        return Some(buf);
      }
    }
    return None;
  }

  /** The header map, filled line by line. */
  method ReadFields(lines: seq<Bytes>) returns (headers: map<Bytes, Bytes>)
    ensures headers == WithFields(map[], lines)
  {
    hide WithField;
    headers := map[];
    for i := 0 to |lines|
      invariant WithFields(headers, lines[i..]) == WithFields(map[], lines)
    {
      assert lines[i..][0] == lines[i] && lines[i..][1..] == lines[i + 1..];
      headers := ReadField(headers, lines[i]);
    }
  }

  method ReadField(headers: map<Bytes, Bytes>, line: Bytes) returns (r: map<Bytes, Bytes>)
    ensures r == WithField(headers, line)
  {
    var text := line;
    if text != [] && text[|text| - 1] == CR {
      text := text[..|text| - 1];
    }
    if text == [] {
      return headers;
    }
    var colon := IndexOf(text, COLON);
    if colon == |text| {
      return headers;
    }
    return headers[ToLower(text[..colon]) := Trim(text[colon + 1..])];
  }

  method ReadBody(sock: Socket, length: nat) returns (body: Option<Bytes>)
    requires sock.Valid()
    modifies sock`position, sock`calls
    ensures sock.Valid()
    ensures var s := old(sock.Rest());
      if |s| < length then body == None && sock.position == old(sock.position) + |s|
      else body == Some(s[..length]) && sock.position == old(sock.position) + length
  {
    ghost var s := sock.Rest();
    var buffer := new byte[length];
    var received := 0;
    while received < length
      invariant sock.Valid() && received <= length && received <= |s|
      invariant sock.position == old(sock.position) + received && sock.Rest() == s[received..]
      invariant buffer[..received] == s[..received]
      decreases length - received
    {
      var n := sock.Receive(buffer, received, length - received);
      if n == 0 {
        return None;
      }
      assert buffer[..received + n] == s[..received] + s[received..][..n];
      received := received + n;
    }
    return Some(buffer[..received]);
  }

  method ParseHead(head: Bytes) returns (r: Option<Request>)
    ensures r == RequestOf(head)
  {
    hide Lines, Words, WithFields, StripCr, IndexOf;
    var lines := Lines(head);
    if lines == [] {
      return None;
    }
    var words := Words(StripCr(lines[0]));
    if |words| < 3 {
      return None;
    }
    var target := words[1];
    var mark := IndexOf(target, QUESTION);
    var req := Request(words[0], target, [], map[], []);
    if mark < |target| {
      req := req.(path := target[..mark], query := target[mark + 1..]);
    } else {
      assert target[..mark] == target;
    }
    var headers := ReadFields(lines[1..]);
    return Some(req.(headers := headers));
  }

  /** However the stream comes in pieces, the result and what is consumed are those of Read. */
  method ReadRequest(sock: Socket) returns (r: Option<Request>)
    requires sock.Valid()
    modifies sock`position, sock`calls
    ensures sock.Valid()
    ensures r == Read(old(sock.Rest())).request && sock.position == old(sock.position) + Read(old(sock.Rest())).consumed
  {
    hide RequestOf, Stoul;
    ghost var s := sock.Rest();
    var raw := ReadUntilDoubleCrlf(sock);
    if raw.None? {
      return None;
    }
    var parsed := ParseHead(raw.value);
    if parsed.None? {
      return None;
    }
    var req := parsed.value;
    if CONTENT_LENGTH in req.headers {
      var length := Stoul(req.headers[CONTENT_LENGTH]);
      if length.None? || length.value > MAX_BODY_SIZE {
        return None;
      }
      var body := ReadBody(sock, length.value);
      if body.None? {
        return None;
      }
      req := req.(body := body.value);
      ghost var h := |raw.value|;
      assert s[h..][..length.value] == s[h..h + length.value];
    } else {
      NoBody(raw.value);
      assert s[|raw.value|..|raw.value| + 0] == [];
    }
    return Some(req);
  }

  lemma NoBody(head: Bytes)
    ensures RequestOf(head).Some? ==> RequestOf(head).value.body == []
  {
  }

  /** Everything, in order; or, on a connection that fails, what it took. */
  method WriteAll(sock: Socket, data: Bytes)
    requires sock.Valid()
    modifies sock`outgoing, sock`calls
    ensures sock.Valid()
    ensures sock.outgoing == old(sock.outgoing) + data[..Min(|data|, sock.accepts - |old(sock.outgoing)|)]
  {
    var sent := 0;
    while sent < |data|
      invariant sock.Valid() && sent <= |data|
      invariant sock.outgoing == old(sock.outgoing) + data[..sent]
      decreases |data| - sent
    {
      var n := sock.Send(data, sent);
      if n == 0 {
        assert sent == sock.accepts - |old(sock.outgoing)|;
        return;
      }
      assert data[..sent + n] == data[..sent] + data[sent..sent + n];
      sent := sent + n;
    }
  }
}
