/** Messages as they are written, and what reading makes of them. */
module HttpMessages {
  import opened Bytes
  import opened Wrappers
  import opened Http

  datatype HeaderField = HeaderField(name: Bytes, value: Bytes)

  // ---------- writing ----------

  /** Lines with their ends, and the empty line. */
  function HeadText(rows: seq<Bytes>): Bytes {
    if rows == [] then CRLF else rows[0] + CRLF + HeadText(rows[1..])
  }

  function Row(f: HeaderField): Bytes {
    f.name + [COLON, SPACE] + f.value
  }

  function Rows(fields: seq<HeaderField>): seq<Bytes> {
    if fields == [] then [] else [Row(fields[0])] + Rows(fields[1..])
  }

  function Digits(n: nat): Bytes {
    if n < 10 then [48 + n] else Digits(n / 10) + [48 + n % 10]
  }

  /** Content-Type */
  const CONTENT_TYPE: Bytes := [67, 111, 110, 116, 101, 110, 116, 45, 84, 121, 112, 101]
  /** Content-Length */
  const WRITTEN_LENGTH: Bytes := [67, 111, 110, 116, 101, 110, 116, 45, 76, 101, 110, 103, 116, 104]
  /** Connection */
  const CONNECTION: Bytes := [67, 111, 110, 110, 101, 99, 116, 105, 111, 110]
  /** close */
  const CLOSE: Bytes := [99, 108, 111, 115, 101]
  /** HTTP/1.1 */
  const VERSION: Bytes := [72, 84, 84, 80, 47, 49, 46, 49]

  function StatusLine(status: nat, reason: Bytes): Bytes {
    VERSION + [SPACE] + Digits(status) + [SPACE] + reason
  }

  function ResponseFields(contentType: Bytes, length: nat, extra: seq<HeaderField>): seq<HeaderField> {
    [HeaderField(CONTENT_TYPE, contentType), HeaderField(WRITTEN_LENGTH, Digits(length)), HeaderField(CONNECTION, CLOSE)] + extra
  }

  function ResponseText(status: nat, reason: Bytes, contentType: Bytes, body: Bytes, extra: seq<HeaderField>): Bytes {
    HeadText([StatusLine(status, reason)] + Rows(ResponseFields(contentType, |body|, extra))) + body
  }

  /** The request line, the fields and the body of a client. A query is there only with a '?'. */
  function Target(path: Bytes, query: Option<Bytes>): Bytes {
    match query
    case None => path
    case Some(q) => path + [QUESTION] + q
  }

  function RequestText(verb: Bytes, path: Bytes, query: Option<Bytes>, version: Bytes, fields: seq<HeaderField>, body: Bytes): Bytes {
    HeadText([verb + [SPACE] + Target(path, query) + [SPACE] + version] + Rows(fields)) + body
  }

  // ---------- what may be written ----------

  predicate Clean(s: Bytes) {
    CR !in s && LF !in s
  }

  predicate GoodRows(rows: seq<Bytes>) {
    rows == [] || (rows[0] != [] && Clean(rows[0]) && GoodRows(rows[1..]))
  }

  predicate IsToken(s: Bytes) {
    s != [] && forall c | c in s :: !IsSpace(c)
  }

  /** A name without colon; a value without white space at its ends. */
  predicate GoodField(f: HeaderField) {
    && f.name != [] && Clean(f.name) && COLON !in f.name && Clean(f.value)
    && (f.value != [] ==> FirstInk(f.value) == 0 && LastInk(f.value) == |f.value|)
  }

  predicate GoodFields(fields: seq<HeaderField>) {
    fields == [] || (GoodField(fields[0]) && GoodFields(fields[1..]))
  }

  /** Names in lower case; of equal names the last one counts. */
  function Collected(headers: map<Bytes, Bytes>, fields: seq<HeaderField>): map<Bytes, Bytes>
    decreases |fields|
  {
    if fields == [] then headers else Collected(headers[ToLower(fields[0].name) := fields[0].value], fields[1..])
  }

  // ---------- the head ends where it was ended ----------

  lemma {:induction false} HeadTextEnds(rows: seq<Bytes>)
    requires rows != []
    ensures EndsHead(HeadText(rows))
  {
    var t, rest := HeadText(rows), HeadText(rows[1..]);
    if rows[1..] == [] {
      assert t == rows[0] + EMPTY_LINE;
    } else {
      HeadTextEnds(rows[1..]);
      SuffixEnds(rows[0] + CRLF, rest);
    }
  }

  lemma SuffixEnds(a: Bytes, b: Bytes)
    requires EndsHead(b)
    ensures EndsHead(a + b)
  {
    assert (a + b)[|a + b| - 4..] == b[|b| - 4..];
  }

  lemma NotEmptyLine(t: Bytes, p: nat)
    requires p + 4 <= |t| && (t[p] != CR || t[p + 2] != CR)
    ensures t[p..p + 4] != EMPTY_LINE
  {
    assert t[p..p + 4][0] == t[p] && t[p..p + 4][2] == t[p + 2];
  }

  /** The text has no empty line before its end. */
  lemma {:induction false} NoEarlyEnd(rows: seq<Bytes>, p: nat)
    requires GoodRows(rows) && p + 4 < |HeadText(rows)|
    ensures HeadText(rows)[p..p + 4] != EMPTY_LINE
  {
    var t := HeadText(rows);
    var row, rest := rows[0], HeadText(rows[1..]);
    if p >= |row| + 2 {
      NoEarlyEnd(rows[1..], p - |row| - 2);
      assert rest[p - |row| - 2..p - |row| + 2] == t[p..p + 4];
    } else if p < |row| {
      assert t[p] == row[p] && row[p] in row;
      NotEmptyLine(t, p);
    } else if p == |row| {
      var next := rows[1..][0];
      assert t[p + 2] == rest[0] == next[0] && next[0] in next;
      NotEmptyLine(t, p);
    } else {
      assert t[p] == LF;
      NotEmptyLine(t, p);
    }
  }

  lemma HeadTextIsHead(rows: seq<Bytes>, rest: Bytes)
    requires rows != [] && GoodRows(rows) && |HeadText(rows)| <= MAX_HEADER_SIZE
    ensures HeadLength(HeadText(rows) + rest) == Some(|HeadText(rows)|)
    ensures (HeadText(rows) + rest)[..|HeadText(rows)|] == HeadText(rows)
  {
    var t := HeadText(rows);
    var s := t + rest;
    HeadTextEnds(rows);
    assert s[..|t|] == t;
    forall j | 0 <= j < |t| ensures !EndsHead(s[..j]) {
      assert s[..j] == t[..j];
      if j >= 4 {
        assert t[j - 4..j] == t[..j][j - 4..];
        NoEarlyEnd(rows, j - 4);
      }
    }
    HeadIsShortest(s, |t|);
  }

  // ---------- lines and fields ----------

  lemma {:induction false} IndexOfAfter(s: Bytes, c: byte, rest: Bytes)
    requires c !in s
    ensures IndexOf(s + [c] + rest, c) == |s| && IndexOf(s, c) == |s|
  {
    if s == [] {
      assert s + [c] + rest == [c] + rest;
    } else {
      assert s[0] in s;
      assert (s + [c] + rest)[1..] == s[1..] + [c] + rest;
      IndexOfAfter(s[1..], c, rest);
    }
  }

  /** The lines that are read, each still with its CR, and the empty one. */
  function WithCr(rows: seq<Bytes>): seq<Bytes> {
    if rows == [] then [[CR]] else [rows[0] + [CR]] + WithCr(rows[1..])
  }

  lemma {:induction false} LinesOfHead(rows: seq<Bytes>)
    requires GoodRows(rows)
    ensures Lines(HeadText(rows)) == WithCr(rows)
  {
    var t := HeadText(rows);
    if rows == [] {
      IndexOfAfter([CR], LF, []);
      assert t == [CR] + [LF] + [];
      assert t[2..] == [] && t[..1] == [CR];
    } else {
      var row, rest := rows[0], HeadText(rows[1..]);
      LinesOfHead(rows[1..]);
      IndexOfAfter(row + [CR], LF, rest);
      assert t == (row + [CR]) + [LF] + rest;
      assert t[..|row| + 1] == row + [CR] && t[|row| + 2..] == rest;
    }
  }

  lemma {:induction false} LastInkAfterSpace(s: Bytes)
    requires s != [] && LastInk(s) == |s|
    ensures LastInk([SPACE] + s) == |s| + 1
  {
    assert ([SPACE] + s)[|s|] == s[|s| - 1];
    LastInkAtMost(s);
  }

  lemma LastInkAtMost(s: Bytes)
    requires s != [] && LastInk(s) == |s|
    ensures s[|s| - 1] != SPACE && s[|s| - 1] != TAB && s[|s| - 1] != CR && s[|s| - 1] != LF
  {
  }

  lemma TrimField(f: HeaderField)
    requires GoodField(f)
    ensures Trim([SPACE] + f.value) == f.value
  {
    var s := [SPACE] + f.value;
    assert s[1..] == f.value;
    if f.value != [] {
      LastInkAfterSpace(f.value);
      assert s[1..|s|] == f.value;
    }
  }

  lemma FieldIsRead(headers: map<Bytes, Bytes>, f: HeaderField)
    requires GoodField(f)
    ensures WithField(headers, Row(f) + [CR]) == headers[ToLower(f.name) := f.value]
  {
    hide IndexOf, Trim;
    var l := StripCr(Row(f) + [CR]);
    assert l == Row(f);
    assert l == f.name + [COLON] + ([SPACE] + f.value);
    IndexOfAfter(f.name, COLON, [SPACE] + f.value);
    assert l[..|f.name|] == f.name && l[|f.name| + 1..] == [SPACE] + f.value;
    TrimField(f);
  }

  lemma {:induction false} FieldsAreRead(headers: map<Bytes, Bytes>, fields: seq<HeaderField>)
    requires GoodFields(fields)
    ensures WithFields(headers, WithCr(Rows(fields))) == Collected(headers, fields)
    decreases |fields|
  {
    hide WithField;
    if fields == [] {
      EmptyLineIsNoField(headers);
      assert [[CR]][1..] == [];
    } else {
      var rows := Rows(fields);
      assert rows[0] == Row(fields[0]) && rows[1..] == Rows(fields[1..]);
      assert WithCr(rows)[1..] == WithCr(rows[1..]);
      FieldIsRead(headers, fields[0]);
      FieldsAreRead(headers[ToLower(fields[0].name) := fields[0].value], fields[1..]);
    }
  }

  lemma EmptyLineIsNoField(headers: map<Bytes, Bytes>)
    ensures WithField(headers, [CR]) == headers
  {
  }

  lemma {:induction false} RowsAreGood(fields: seq<HeaderField>)
    requires GoodFields(fields)
    ensures GoodRows(Rows(fields))
  {
    if fields == [] {
    } else {
      RowsAreGood(fields[1..]);
      assert Rows(fields)[1..] == Rows(fields[1..]);
    }
  }

  // ---------- the request line ----------

  lemma {:induction false} WordThen(w: Bytes, rest: Bytes)
    requires forall c | c in w :: !IsSpace(c)
    requires rest == [] || IsSpace(rest[0])
    ensures WordLength(w + rest) == |w|
  {
    if w == [] {
      assert w + rest == rest;
    } else {
      assert w[0] in w;
      assert (w + rest)[1..] == w[1..] + rest;
      WordThen(w[1..], rest);
    }
  }

  lemma FirstWord(w: Bytes, rest: Bytes)
    requires IsToken(w) && (rest == [] || IsSpace(rest[0]))
    ensures Words(w + rest) == [w] + Words(rest)
  {
    assert w[0] in w;
    WordThen(w, rest);
    assert (w + rest)[..|w|] == w && (w + rest)[|w|..] == rest;
  }

  lemma WordsAfterSpace(rest: Bytes)
    ensures Words([SPACE] + rest) == Words(rest)
  {
    assert ([SPACE] + rest)[1..] == rest;
  }

  lemma WordsOfRequestLine(verb: Bytes, target: Bytes, version: Bytes)
    requires IsToken(verb) && IsToken(target) && IsToken(version)
    ensures Words(verb + [SPACE] + target + [SPACE] + version) == [verb, target, version]
  {
    hide Words;
    assert version + [] == version;
    FirstWord(version, []);
    NoWords();
    WordsAfterSpace(version);
    FirstWord(target, [SPACE] + version);
    WordsAfterSpace(target + ([SPACE] + version));
    FirstWord(verb, [SPACE] + (target + ([SPACE] + version)));
    assert verb + [SPACE] + target + [SPACE] + version == verb + ([SPACE] + (target + ([SPACE] + version)));
  }

  lemma NoWords()
    ensures Words([]) == []
  {
  }

  lemma TargetSplits(path: Bytes, query: Option<Bytes>)
    requires QUESTION !in path
    ensures var t, mark := Target(path, query), IndexOf(Target(path, query), QUESTION);
      && t[..mark] == path && (mark == |t| <==> query.None?)
      && (query.Some? ==> t[mark + 1..] == query.value)
  {
    IndexOfAfter(path, QUESTION, if query.Some? then query.value else []);
  }

  lemma RequestHead(verb: Bytes, path: Bytes, query: Option<Bytes>, version: Bytes, fields: seq<HeaderField>)
    requires IsToken(verb) && IsToken(Target(path, query)) && IsToken(version) && QUESTION !in path && GoodFields(fields)
    ensures RequestOf(HeadText([verb + [SPACE] + Target(path, query) + [SPACE] + version] + Rows(fields)))
         == Some(Request(verb, path, if query.Some? then query.value else [], Collected(map[], fields), []))
  {
    hide Words, Lines, IndexOf, WithFields, IsToken, Target;
    var first := verb + [SPACE] + Target(path, query) + [SPACE] + version;
    var rows := [first] + Rows(fields);
    RequestLineIsClean(verb, Target(path, query), version);
    RowsAreGood(fields);
    assert rows[1..] == Rows(fields);
    LinesOfHead(rows);
    assert WithCr(rows)[0] == first + [CR] && WithCr(rows)[1..] == WithCr(Rows(fields));
    assert StripCr(first + [CR]) == first;
    WordsOfRequestLine(verb, Target(path, query), version);
    TargetSplits(path, query);
    FieldsAreRead(map[], fields);
  }

  lemma RequestLineIsClean(verb: Bytes, target: Bytes, version: Bytes)
    requires IsToken(verb) && IsToken(target) && IsToken(version)
    ensures Clean(verb + [SPACE] + target + [SPACE] + version) && verb + [SPACE] + target + [SPACE] + version != []
  {
    assert IsSpace(CR) && IsSpace(LF);
  }

  /**
   A request written by the grammar, whose Content-Length, if any, is the length of its body,
   is read back part by part, and exactly its bytes are consumed.
   */
  lemma RequestRoundTrip(verb: Bytes, path: Bytes, query: Option<Bytes>, version: Bytes, fields: seq<HeaderField>, body: Bytes, more: Bytes)
    requires IsToken(verb) && IsToken(Target(path, query)) && IsToken(version) && QUESTION !in path && GoodFields(fields)
    requires |RequestText(verb, path, query, version, fields, [])| <= MAX_HEADER_SIZE
    requires BodyLength(Collected(map[], fields)) == Some(|body|)
    ensures Read(RequestText(verb, path, query, version, fields, body) + more)
         == Reading(Some(Request(verb, path, if query.Some? then query.value else [], Collected(map[], fields), body)),
                    |RequestText(verb, path, query, version, fields, body)|)
  {
    hide RequestOf, HeadLength, BodyLength, Collected, HeadText, IsToken, Target, GoodFields;
    var first := verb + [SPACE] + Target(path, query) + [SPACE] + version;
    var rows := [first] + Rows(fields);
    var t := HeadText(rows);
    assert t + [] == t;
    RequestLineIsClean(verb, Target(path, query), version);
    RowsAreGood(fields);
    assert rows[1..] == Rows(fields) && GoodRows(rows);
    HeadTextIsHead(rows, body + more);
    RequestHead(verb, path, query, version, fields);
    var s := RequestText(verb, path, query, version, fields, body) + more;
    assert s == t + (body + more);
    assert s[|t|..|t| + |body|] == body;
  }

  // ---------- the response ----------

  lemma {:induction false} DigitsAreDigits(n: nat)
    ensures |Digits(n)| > 0 && (forall c | c in Digits(n) :: IsDigit(c)) && Decimal(Digits(n)) == n
  {
    if n < 10 {
      assert Digits(n)[..0] == [];
    } else {
      DigitsAreDigits(n / 10);
      assert Digits(n)[..|Digits(n)| - 1] == Digits(n / 10);
    }
  }

  lemma {:induction false} AllDigits(s: Bytes)
    requires forall c | c in s :: IsDigit(c)
    ensures DigitsLength(s) == |s|
  {
    if s == [] {
    } else {
      assert s[0] in s;
      AllDigits(s[1..]);
    }
  }

  /** A length that is written is read back. */
  lemma LengthRoundTrip(n: nat)
    requires n < ULONG
    ensures Stoul(Digits(n)) == Some(n)
  {
    hide Digits;
    var s := Digits(n);
    DigitsAreDigits(n);
    AllDigits(s);
    assert s[0] in s;
    assert s[..|s|] == s;
  }

  lemma DigitsAreInk(n: nat)
    ensures Clean(Digits(n)) && FirstInk(Digits(n)) == 0 && LastInk(Digits(n)) == |Digits(n)|
  {
    hide Digits;
    var s := Digits(n);
    DigitsAreDigits(n);
    assert s[0] in s && s[|s| - 1] in s;
  }

  /** A field among `extra` that is read as Content-Length. */
  predicate NamesLength(fields: seq<HeaderField>) {
    fields != [] && (ToLower(fields[0].name) == CONTENT_LENGTH || NamesLength(fields[1..]))
  }

  lemma {:induction false} KeepsLength(headers: map<Bytes, Bytes>, fields: seq<HeaderField>)
    requires CONTENT_LENGTH in headers && !NamesLength(fields)
    ensures CONTENT_LENGTH in Collected(headers, fields)
    ensures Collected(headers, fields)[CONTENT_LENGTH] == headers[CONTENT_LENGTH]
    decreases |fields|
  {
    if fields == [] {
    } else {
      KeepsLength(headers[ToLower(fields[0].name) := fields[0].value], fields[1..]);
    }
  }

  lemma CollectedLength(contentType: Bytes, length: nat, extra: seq<HeaderField>)
    requires !NamesLength(extra)
    ensures var fields := ResponseFields(contentType, length, extra);
      CONTENT_LENGTH in Collected(map[], fields) && Collected(map[], fields)[CONTENT_LENGTH] == Digits(length)
  {
    hide Digits, ToLower;
    var fields := ResponseFields(contentType, length, extra);
    LowerNames();
    var one: map<Bytes, Bytes> := map[ToLower(CONTENT_TYPE) := contentType];
    var two := one[CONTENT_LENGTH := Digits(length)];
    var three := two[ToLower(CONNECTION) := CLOSE];
    assert fields[1..] == [HeaderField(WRITTEN_LENGTH, Digits(length)), HeaderField(CONNECTION, CLOSE)] + extra;
    assert fields[1..][1..] == [HeaderField(CONNECTION, CLOSE)] + extra;
    assert fields[1..][1..][1..] == extra;
    assert Collected(map[], fields) == Collected(one, fields[1..]) == Collected(two, fields[1..][1..]) == Collected(three, extra);
    KeepsLength(three, extra);
  }

  lemma LowerNames()
    ensures ToLower(WRITTEN_LENGTH) == CONTENT_LENGTH && |ToLower(CONNECTION)| != |CONTENT_LENGTH|
  {
    LowerWord(WRITTEN_LENGTH, CONTENT_LENGTH, 0);
  }

  /** Letter by letter. */
  lemma {:induction false} LowerWord(a: Bytes, b: Bytes, k: nat)
    requires |a| == |b| && k <= |a| && forall j :: k <= j < |a| ==> ToLowerByte(a[j]) == b[j]
    ensures ToLower(a[k..]) == b[k..]
    decreases |a| - k
  {
    if k < |a| {
      LowerWord(a, b, k + 1);
      assert a[k..][1..] == a[k + 1..] && b[k..] == [b[k]] + b[k + 1..];
    }
  }

  /**
   A response ends its head once, where its body begins, and its head declares the length of
   its body, as long as no part holds a line break and no extra field declares another length.
   */
  lemma ResponseIsFramed(status: nat, reason: Bytes, contentType: Bytes, body: Bytes, extra: seq<HeaderField>)
    requires Clean(reason) && GoodField(HeaderField(CONTENT_TYPE, contentType)) && GoodFields(extra) && !NamesLength(extra)
    requires |body| <= MAX_BODY_SIZE && |ResponseText(status, reason, contentType, body, extra)| - |body| <= MAX_HEADER_SIZE
    ensures var text := ResponseText(status, reason, contentType, body, extra);
      && HeadLength(text) == Some(|text| - |body|)
      && BodyLength(WithFields(map[], Lines(text[..|text| - |body|])[1..])) == Some(|body|)
  {
    hide HeadLength, Stoul, Collected, HeadText, GoodFields, Lines, WithFields, Digits, Clean, NamesLength, Rows;
    var fields := ResponseFields(contentType, |body|, extra);
    var line := StatusLine(status, reason);
    var rows := [line] + Rows(fields);
    FieldsAreGood(contentType, |body|, extra);
    RowsAreGood(fields);
    StatusLineIsClean(status, reason);
    assert rows[1..] == Rows(fields) && GoodRows(rows);
    HeadTextIsHead(rows, body);
    LinesOfHead(rows);
    assert WithCr(rows)[1..] == WithCr(Rows(fields));
    FieldsAreRead(map[], fields);
    CollectedLength(contentType, |body|, extra);
    LengthRoundTrip(|body|);
  }

  lemma FieldsAreGood(contentType: Bytes, length: nat, extra: seq<HeaderField>)
    requires GoodField(HeaderField(CONTENT_TYPE, contentType)) && GoodFields(extra)
    ensures GoodFields(ResponseFields(contentType, length, extra))
  {
    hide Digits, GoodField;
    DigitsAreInk(length);
    OwnFieldsAreGood(length);
    var fields := ResponseFields(contentType, length, extra);
    assert fields[1..][1..][1..] == extra;
    assert GoodFields(fields[1..][1..]);
    assert GoodFields(fields[1..]);
  }

  lemma OwnFieldsAreGood(length: nat)
    ensures GoodField(HeaderField(WRITTEN_LENGTH, Digits(length))) && GoodField(HeaderField(CONNECTION, CLOSE))
  {
    hide Digits, FirstInk, LastInk;
    DigitsAreInk(length);
    LettersAreClean(WRITTEN_LENGTH);
    LettersAreClean(CONNECTION);
    LettersAreClean(CLOSE);
  }

  /** Letters and hyphens: neither colon nor white space. */
  predicate Letters(s: Bytes) {
    forall j :: 0 <= j < |s| ==> s[j] == MINUS || 65 <= s[j]
  }

  lemma LettersAreClean(s: Bytes)
    requires s != [] && Letters(s)
    ensures Clean(s) && COLON !in s && FirstInk(s) == 0 && LastInk(s) == |s|
  {
  }

  lemma StatusLineIsClean(status: nat, reason: Bytes)
    requires Clean(reason)
    ensures Clean(StatusLine(status, reason)) && StatusLine(status, reason) != []
  {
    hide Digits;
    DigitsAreInk(status);
  }

  method WriteResponse(sock: Socket, status: nat, reason: Bytes, contentType: Bytes, body: Bytes, extra: seq<HeaderField>)
    requires sock.Valid()
    modifies sock`outgoing, sock`calls
    ensures sock.Valid()
    ensures var text := ResponseText(status, reason, contentType, body, extra);
      sock.outgoing == old(sock.outgoing) + text[..Min(|text|, sock.accepts - |old(sock.outgoing)|)]
  {
    hide HeadText, Digits, Rows, Row;
    var out := StatusLine(status, reason) + CRLF;
    out := out + Row(HeaderField(CONTENT_TYPE, contentType)) + CRLF;
    out := out + Row(HeaderField(WRITTEN_LENGTH, Digits(|body|))) + CRLF;
    out := out + Row(HeaderField(CONNECTION, CLOSE)) + CRLF;
    ResponseStart(status, reason, contentType, |body|, extra);
    var i := 0;
    while i < |extra|
      invariant i <= |extra| && sock.Valid() && sock.outgoing == old(sock.outgoing)
      invariant out + HeadText(Rows(extra[i..])) + body == ResponseText(status, reason, contentType, body, extra)
    {
      HeadTextStep(out, extra[i..]);
      assert extra[i..][1..] == extra[i + 1..];
      out := out + Row(extra[i]) + CRLF;
      i := i + 1;
    }
    assert extra[i..] == [];
    NoRows();
    out := out + CRLF + body;
    WriteAll(sock, out);
  }

  lemma HeadTextStep(out: Bytes, fields: seq<HeaderField>)
    requires fields != []
    ensures out + HeadText(Rows(fields)) == out + Row(fields[0]) + CRLF + HeadText(Rows(fields[1..]))
  {
    hide Row;
    assert Rows(fields)[1..] == Rows(fields[1..]);
  }

  lemma NoRows()
    ensures HeadText(Rows([])) == CRLF
  {
  }

  lemma ResponseStart(status: nat, reason: Bytes, contentType: Bytes, length: nat, extra: seq<HeaderField>)
    ensures HeadText([StatusLine(status, reason)] + Rows(ResponseFields(contentType, length, extra)))
         == StatusLine(status, reason) + CRLF + Row(HeaderField(CONTENT_TYPE, contentType)) + CRLF
            + Row(HeaderField(WRITTEN_LENGTH, Digits(length))) + CRLF + Row(HeaderField(CONNECTION, CLOSE)) + CRLF
            + HeadText(Rows(extra))
  {
    hide Rows, Row, Digits;
    var fields := ResponseFields(contentType, length, extra);
    var line := StatusLine(status, reason);
    assert ([line] + Rows(fields))[1..] == Rows(fields);
    HeadTextStep(line + CRLF, fields);
    var f1 := fields[1..];
    HeadTextStep(line + CRLF + Row(fields[0]) + CRLF, f1);
    var f2 := f1[1..];
    HeadTextStep(line + CRLF + Row(fields[0]) + CRLF + Row(f1[0]) + CRLF, f2);
    assert f2[1..] == extra;
  }
}
