/** What a reader of a response finds: the status line, the fields and the body that were given. */
module HttpResponses {
  import opened Bytes
  import opened Wrappers
  import opened Http
  import opened HttpMessages
  import opened HttpGrammar

  // ---------- reading ----------

  datatype Status = Status(version: Bytes, digits: Bytes, reason: Bytes)

  /** A line cut at its first two blanks. */
  function CutTwice(line: Bytes): Option<Status> {
    var a := IndexOf(line, 32);
    if a == |line| then None
    else
      var rest := line[a + 1..];
      var b := IndexOf(rest, 32);
      if b == |rest| then None else Some(Status(line[..a], rest[..b], rest[b + 1..]))
  }

  lemma CutsAtBlanks(version: Bytes, digits: Bytes, reason: Bytes)
    requires 32 !in version && 32 !in digits
    ensures CutTwice(version + [32] + digits + [32] + reason) == Some(Status(version, digits, reason))
  {
    hide IndexOf;
    var rest := digits + [32] + reason;
    var line := version + [32] + rest;
    assert line == version + [32] + digits + [32] + reason;
    IndexOfAfter(version, 32, rest);
    IndexOfAfter(digits, 32, reason);
    assert line[..|version|] == version && line[|version| + 1..] == rest;
    assert rest[..|digits|] == digits && rest[|digits| + 1..] == reason;
  }

  /** The number as it is written: its value, and no zero in front. */
  predicate Writes(digits: Bytes, n: nat) {
    digits != [] && AllDigit(digits) && Value(digits) == n && (digits[0] == 48 ==> |digits| == 1)
  }

  lemma {:induction false} DigitsLead(n: nat)
    ensures Digits(n)[0] == 48 ==> n == 0 && |Digits(n)| == 1
  {
    if n < 10 {
    } else {
      DigitsLead(n / 10);
      assert Digits(n)[0] == Digits(n / 10)[0];
    }
  }

  lemma DigitsWrite(n: nat)
    ensures Writes(Digits(n), n)
  {
    hide Digits, Value, Decimal;
    var s := Digits(n);
    DigitsAreDigits(n);
    forall j | 0 <= j < |s| ensures 48 <= s[j] <= 57 {
      assert s[j] in s && IsDigit(s[j]);
    }
    DecimalIsValue(s);
    DigitsLead(n);
  }

  // ---------- the response ----------

  /** Its own three fields, unless an extra one of the same name comes after them. */
  function FieldOf(contentType: Bytes, length: Bytes, extra: seq<HeaderField>, key: Bytes): Option<Bytes> {
    if LastField(extra, key).Some? then LastField(extra, key)
    // connection: close
    else if key == [99, 111, 110, 110, 101, 99, 116, 105, 111, 110] then Some([99, 108, 111, 115, 101])
    // content-length
    else if key == [99, 111, 110, 116, 101, 110, 116, 45, 108, 101, 110, 103, 116, 104] then Some(length)
    // content-type
    else if key == [99, 111, 110, 116, 101, 110, 116, 45, 116, 121, 112, 101] then Some(contentType)
    else None
  }

  lemma {:induction false} LastFieldOf(fields: seq<HeaderField>, extra: seq<HeaderField>, key: Bytes)
    ensures LastField(fields + extra, key) == if LastField(extra, key).Some? then LastField(extra, key) else LastField(fields, key)
  {
    if extra == [] {
      assert fields + extra == fields;
    } else {
      assert (fields + extra)[..|fields + extra| - 1] == fields + extra[..|extra| - 1];
      LastFieldOf(fields, extra[..|extra| - 1], key);
    }
  }

  lemma OneKey(name: Bytes, lower: Bytes, key: Bytes)
    requires Names(name, lower)
    ensures Names(name, key) <==> key == lower
  {
  }

  lemma OwnNames(key: Bytes)
    ensures Names(CONNECTION, key) <==> key == [99, 111, 110, 110, 101, 99, 116, 105, 111, 110]
    ensures Names(WRITTEN_LENGTH, key) <==> key == [99, 111, 110, 116, 101, 110, 116, 45, 108, 101, 110, 103, 116, 104]
    ensures Names(CONTENT_TYPE, key) <==> key == [99, 111, 110, 116, 101, 110, 116, 45, 116, 121, 112, 101]
  {
    OneKey(CONNECTION, [99, 111, 110, 110, 101, 99, 116, 105, 111, 110], key);
    OneKey(WRITTEN_LENGTH, [99, 111, 110, 116, 101, 110, 116, 45, 108, 101, 110, 103, 116, 104], key);
    OneKey(CONTENT_TYPE, [99, 111, 110, 116, 101, 110, 116, 45, 116, 121, 112, 101], key);
  }

  lemma OwnFields(contentType: Bytes, length: nat, extra: seq<HeaderField>, key: Bytes)
    ensures LastField(ResponseFields(contentType, length, extra), key) == FieldOf(contentType, Digits(length), extra, key)
  {
    hide Digits, Names, LastField;
    var a, b, c := HeaderField(CONTENT_TYPE, contentType), HeaderField(WRITTEN_LENGTH, Digits(length)), HeaderField(CONNECTION, CLOSE);
    LastFieldOf([a, b, c], extra, key);
    ThreeFields(a, b, c, key);
    OwnNames(key);
  }

  lemma ThreeFields(a: HeaderField, b: HeaderField, c: HeaderField, key: Bytes)
    ensures LastField([a, b, c], key)
         == if Names(c.name, key) then Some(c.value)
            else if Names(b.name, key) then Some(b.value)
            else if Names(a.name, key) then Some(a.value) else None
  {
    hide Names;
    assert [a, b, c][..2] == [a, b] && [a, b][..1] == [a];
    assert LastField([a], key) == if Names(a.name, key) then Some(a.value) else None;
    assert LastField([a, b], key) == if Names(b.name, key) then Some(b.value) else LastField([a], key);
  }

  lemma ResponseHead(status: nat, reason: Bytes, contentType: Bytes, body: Bytes, extra: seq<HeaderField>)
    requires Clean(reason) && GoodField(HeaderField(CONTENT_TYPE, contentType)) && GoodFields(extra)
    requires |ResponseText(status, reason, contentType, body, extra)| - |body| <= MAX_HEADER_SIZE
    ensures var text := ResponseText(status, reason, contentType, body, extra);
      && HeadLength(text) == Some(|text| - |body|) && text[|text| - |body|..] == body
      && Lines(text[..|text| - |body|]) == [StatusLine(status, reason) + [CR]] + WithCr(Rows(ResponseFields(contentType, |body|, extra)))
      && WithFields(map[], WithCr(Rows(ResponseFields(contentType, |body|, extra))))
         == Collected(map[], ResponseFields(contentType, |body|, extra))
  {
    hide HeadLength, Collected, HeadText, GoodFields, Lines, WithFields, Clean, Rows, StatusLine, ResponseFields;
    var fields := ResponseFields(contentType, |body|, extra);
    var line := StatusLine(status, reason);
    var rows := [line] + Rows(fields);
    FieldsAreGood(contentType, |body|, extra);
    RowsAreGood(fields);
    StatusLineIsClean(status, reason);
    assert rows[1..] == Rows(fields) && GoodRows(rows);
    HeadTextIsHead(rows, body);
    LinesOfHead(rows);
    assert WithCr(rows)[1..] == WithCr(Rows(fields));
    FieldsAreRead(map[], fields);
  }

  lemma StatusIsRead(status: nat, reason: Bytes)
    ensures 13 !in reason ==> StripCr(StatusLine(status, reason) + [CR]) == StatusLine(status, reason)
    ensures CutTwice(StatusLine(status, reason)) == Some(Status([72, 84, 84, 80, 47, 49, 46, 49], Digits(status), reason))
  {
    hide Digits, CutTwice, Value;
    DigitsWrite(status);
    CutsAtBlanks([72, 84, 84, 80, 47, 49, 46, 49], Digits(status), reason);
  }

  lemma ContentTypeIsGood(contentType: Bytes)
    requires Sendable(HeaderField([120], contentType))
    ensures GoodField(HeaderField(CONTENT_TYPE, contentType))
  {
    OneIsGood(HeaderField([120], contentType));
    LettersAreClean(CONTENT_TYPE);
  }

  /**
   A response is read back: the first line is HTTP/1.1, the status in decimal and the reason,
   between blanks; the fields are the given content type, the length of the body, "close" and
   the extra ones; and what follows the head is the body.
   */
  lemma ResponseReadBack(status: nat, reason: Bytes, contentType: Bytes, body: Bytes, extra: seq<HeaderField>, key: Bytes)
    requires 13 !in reason && 10 !in reason && Sendable(HeaderField([120], contentType)) && forall f | f in extra :: Sendable(f)
    requires |ResponseText(status, reason, contentType, body, extra)| - |body| <= 65_536
    ensures var text := ResponseText(status, reason, contentType, body, extra);
      && HeadLength(text).Some?
      && var h := HeadLength(text).value;
      && h <= |text| && text[h..] == body
      && var lines := Lines(text[..h]);
      && lines != []
      && var status' := CutTwice(StripCr(lines[0])); var headers := WithFields(map[], lines[1..]);
      && status'.Some? && status'.value.version == [72, 84, 84, 80, 47, 49, 46, 49]
      && Writes(status'.value.digits, status) && status'.value.reason == reason
      && exists length: Bytes ::
           && Writes(length, |body|)
           && match FieldOf(contentType, length, extra, key)
              case None => key !in headers
              case Some(v) => key in headers && headers[key] == v
  {
    hide ResponseText, HeadLength, Lines, WithFields, StatusLine, ResponseFields, FieldOf, LastField, Collected, Digits, CutTwice;
    hide GoodFields, Sendable, Writes, StripCr;
    ContentTypeIsGood(contentType);
    SendableIsGood(extra);
    ResponseHead(status, reason, contentType, body, extra);
    StatusIsRead(status, reason);
    DigitsWrite(status);
    DigitsWrite(|body|);
    OwnFields(contentType, |body|, extra, key);
    CollectedIsLast(ResponseFields(contentType, |body|, extra), key);
    var text := ResponseText(status, reason, contentType, body, extra);
    var rest := WithCr(Rows(ResponseFields(contentType, |body|, extra)));
    assert ([StatusLine(status, reason) + [CR]] + rest)[1..] == rest;
  }
}
