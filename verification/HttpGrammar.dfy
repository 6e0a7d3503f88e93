/**
 What reading makes of a head, stated byte by byte: where it ends, its lines, its words, its
 fields and the length that it declares. White space, separators and limits are given as
 numbers here.
 */
module HttpGrammar {
  import opened Bytes
  import opened Wrappers
  import opened Http
  import opened HttpMessages

  // ---------- where the head ends ----------

  predicate EmptyLineEndsAt(s: Bytes, j: nat) {
    4 <= j <= |s| && s[j - 4..j] == [13, 10, 13, 10]
  }

  /** The head is the shortest prefix that ends in CR LF CR LF, and it has at most 65536 bytes. */
  lemma HeadEndsAt(s: Bytes, h: nat)
    ensures HeadLength(s) == Some(h) <==>
      h <= 65_536 && EmptyLineEndsAt(s, h) && forall j: nat :: j < h ==> !EmptyLineEndsAt(s, j)
  {
    HeadIsShortest(s, h);
    if h <= |s| {
      forall j: nat | j <= h ensures EndsHead(s[..j]) <==> EmptyLineEndsAt(s, j) {
        EndsAt(s, j);
      }
    }
  }

  lemma EndsAt(s: Bytes, j: nat)
    requires j <= |s|
    ensures EndsHead(s[..j]) <==> EmptyLineEndsAt(s, j)
  {
    if j >= 4 {
      assert s[..j][j - 4..] == s[j - 4..j];
    }
  }

  // ---------- lines and words ----------

  function Joined(lines: seq<Bytes>): Bytes {
    if lines == [] then [] else lines[0] + [10] + Joined(lines[1..])
  }

  lemma JoinedMore(line: Bytes, lines: seq<Bytes>)
    ensures Joined([line] + lines) == line + [10] + Joined(lines)
  {
    assert ([line] + lines)[1..] == lines;
  }

  /** What is split off at a line feed goes back in front of what is left. */
  lemma SplitAt(s: Bytes, k: nat, rest: Bytes)
    requires k < |s| && s[k] == 10 && rest == s[k + 1..]
    ensures s == s[..k] + [10] + rest
    ensures rest == [] ==> s[|s| - 1] == 10
    ensures rest != [] ==> rest[|rest| - 1] == s[|s| - 1]
  {
  }

  lemma OneLineMore(s: Bytes, line: Bytes, rest: Bytes, joined: Bytes)
    requires s == line + [10] + rest && joined == if rest == [] || rest[|rest| - 1] == 10 then rest else rest + [10]
    requires (rest == [] ==> s[|s| - 1] == 10) && (rest != [] ==> rest[|rest| - 1] == s[|s| - 1])
    ensures line + [10] + joined == if s[|s| - 1] == 10 then s else s + [10]
  {
  }

  /** The lines hold no line feed and give the text back; the last one may lack its own. */
  lemma {:induction false} LinesJoin(s: Bytes)
    ensures forall l | l in Lines(s) :: 10 !in l
    ensures Joined(Lines(s)) == if s == [] || s[|s| - 1] == 10 then s else s + [10]
    decreases |s|
  {
    hide IndexOf, Joined;
    if s == [] {
      assert Joined([]) == [] by { NothingJoined(); }
    } else {
      var k := IndexOf(s, 10);
      FirstAt(s, 10);
      if k == |s| {
        JoinedMore(s, []);
        NothingJoined();
        assert s[..k] == s && [s] + [] == [s];
      } else {
        var rest := s[k + 1..];
        LinesJoin(rest);
        JoinedMore(s[..k], Lines(rest));
        SplitAt(s, k, rest);
        OneLineMore(s, s[..k], rest, Joined(Lines(rest)));
      }
    }
  }

  lemma NothingJoined()
    ensures Joined([]) == []
  {
  }

  /** The index of the first such byte, or the length without one. */
  lemma {:induction false} FirstAt(s: Bytes, c: byte)
    ensures c !in s[..IndexOf(s, c)]
    ensures IndexOf(s, c) < |s| ==> s[IndexOf(s, c)] == c
  {
    if s == [] || s[0] == c {
    } else {
      FirstAt(s[1..], c);
      var k := IndexOf(s[1..], c);
      assert s[..k + 1] == [s[0]] + s[1..][..k];
    }
  }

  /** Space, tab, line feed, vertical tab, form feed and carriage return. */
  predicate White(s: Bytes) {
    forall j :: 0 <= j < |s| ==> s[j] == 32 || 9 <= s[j] <= 13
  }

  predicate Solid(s: Bytes) {
    s != [] && forall j :: 0 <= j < |s| ==> s[j] != 32 && !(9 <= s[j] <= 13)
  }

  lemma {:induction false} SkipsWhite(white: Bytes, rest: Bytes)
    requires White(white)
    ensures SkipSpaces(white + rest) == SkipSpaces(rest)
  {
    if white == [] {
      assert white + rest == rest;
    } else {
      assert white[0] in white;
      assert (white + rest)[1..] == white[1..] + rest;
      SkipsWhite(white[1..], rest);
    }
  }

  /** Words are what stands between white space. */
  lemma WordsBetweenWhite(white: Bytes, word: Bytes, rest: Bytes)
    requires White(white) && Solid(word) && (rest == [] || White(rest[..1]))
    ensures Words(white) == []
    ensures Words(white + (word + rest)) == [word] + Words(rest)
  {
    SkipsWhite(white, []);
    assert white + [] == white;
    SkipsWhite(white, word + rest);
    assert rest != [] ==> rest[0] in rest[..1];
    FirstWord(word, rest);
    assert word[0] in word && (word + rest)[0] == word[0];
    assert SkipSpaces(word + rest) == word + rest;
  }

  // ---------- fields ----------

  lemma {:induction false} LowerAt(s: Bytes, k: nat)
    requires k < |s|
    ensures ToLower(s)[k] == if 65 <= s[k] <= 90 then s[k] + 32 else s[k]
  {
    if k > 0 {
      LowerAt(s[1..], k - 1);
    }
  }

  /** The same name but for the case of its letters; `key` is in lower case. */
  predicate Names(name: Bytes, key: Bytes) {
    |name| == |key| && forall k :: 0 <= k < |name| ==> key[k] == if 65 <= name[k] <= 90 then name[k] + 32 else name[k]
  }

  lemma NamesLower(name: Bytes, key: Bytes)
    ensures Names(name, key) <==> ToLower(name) == key
  {
    hide ToLower;
    forall k | 0 <= k < |name| ensures ToLower(name)[k] == if 65 <= name[k] <= 90 then name[k] + 32 else name[k] {
      LowerAt(name, k);
    }
  }

  /** The value of the last field with a name. */
  function LastField(fields: seq<HeaderField>, key: Bytes): Option<Bytes> {
    if fields == [] then None
    else
      var last := fields[|fields| - 1];
      if Names(last.name, key) then Some(last.value) else LastField(fields[..|fields| - 1], key)
  }

  lemma {:induction false} CollectedMore(headers: map<Bytes, Bytes>, fields: seq<HeaderField>, f: HeaderField)
    ensures Collected(headers, fields + [f]) == Collected(headers, fields)[ToLower(f.name) := f.value]
    decreases |fields|
  {
    if fields == [] {
      assert [f][1..] == [];
    } else {
      assert (fields + [f])[1..] == fields[1..] + [f];
      CollectedMore(headers[ToLower(fields[0].name) := fields[0].value], fields[1..], f);
    }
  }

  /** The map of fields holds the last value of every name, without regard to case. */
  lemma {:induction false} CollectedIsLast(fields: seq<HeaderField>, key: Bytes)
    ensures match LastField(fields, key)
            case None => key !in Collected(map[], fields)
            case Some(v) => key in Collected(map[], fields) && Collected(map[], fields)[key] == v
  {
    if fields == [] {
    } else {
      var most, last := fields[..|fields| - 1], fields[|fields| - 1];
      assert fields == most + [last];
      CollectedMore(map[], most, last);
      NamesLower(last.name, key);
      CollectedIsLast(most, key);
    }
  }

  predicate Blank(s: Bytes) {
    forall j :: 0 <= j < |s| ==> s[j] == 32 || s[j] == 9
  }

  lemma {:induction false} BlankBefore(blank: Bytes, rest: Bytes)
    requires Blank(blank) && rest != [] && rest[0] != 32 && rest[0] != 9
    ensures FirstInk(blank + rest) == |blank|
  {
    if blank == [] {
      assert blank + rest == rest;
    } else {
      assert blank[0] in blank && (blank + rest)[1..] == blank[1..] + rest;
      BlankBefore(blank[1..], rest);
    }
  }

  lemma {:induction false} BlankAfter(text: Bytes, blank: Bytes)
    requires text != [] && text[|text| - 1] !in [32, 9, 13, 10]
    requires forall c | c in blank :: c in [32, 9, 13, 10]
    ensures LastInk(text + blank) == |text|
  {
    if blank == [] {
      assert text + blank == text;
    } else {
      assert blank[|blank| - 1] in blank;
      assert (text + blank)[..|text + blank| - 1] == text + blank[..|blank| - 1];
      BlankAfter(text, blank[..|blank| - 1]);
    }
  }

  /** Blanks around a value are cut off; inside they stay. */
  lemma TrimCuts(before: Bytes, value: Bytes, after: Bytes)
    requires Blank(before) && forall c | c in after :: c in [32, 9, 13, 10]
    requires value != [] && value[0] !in [32, 9] && value[|value| - 1] !in [32, 9, 13, 10]
    ensures Trim(before + value + after) == value && Trim(before) == []
  {
    hide FirstInk, LastInk;
    BlankBefore(before, value + after);
    BlankAfter(before + value, after);
    assert before + value + after == before + (value + after);
    AllBlank(before);
    assert (before + value + after)[|before|..|before| + |value|] == value;
  }

  lemma {:induction false} AllBlank(s: Bytes)
    requires Blank(s)
    ensures FirstInk(s) == |s|
  {
    if s == [] {
    } else {
      assert s[0] in s;
      AllBlank(s[1..]);
    }
  }

  lemma WithoutEnd(line: Bytes, end: Bytes)
    requires 13 !in line && end in [[], [13]]
    ensures StripCr(line + end) == line
  {
    assert line != [] ==> line[|line| - 1] in line;
    assert end == [] ==> line + end == line;
  }

  /** A line without a colon says nothing. */
  lemma LineSaysNothing(headers: map<Bytes, Bytes>, line: Bytes, end: Bytes)
    requires 13 !in line && 58 !in line && end in [[], [13]]
    ensures WithField(headers, line + end) == headers
  {
    hide IndexOf, StripCr;
    WithoutEnd(line, end);
    FirstAt(line, 58);
  }

  /** A line sets the name before its first colon, in lower case, to what stands behind it, trimmed. */
  lemma LineSets(headers: map<Bytes, Bytes>, name: Bytes, key: Bytes, value: Bytes, end: Bytes)
    requires 13 !in name && 13 !in value && 58 !in name && end in [[], [13]] && Names(name, key)
    ensures WithField(headers, name + [58] + value + end) == headers[key := Trim(value)]
  {
    hide Trim, IndexOf, ToLower, StripCr;
    var line := name + [58] + value;
    WithoutEnd(line, end);
    NamesLower(name, key);
    IndexOfAfter(name, 58, value);
    assert line[..|name|] == name && line[|name| + 1..] == value;
  }

  // ---------- the declared length ----------

  predicate AllDigit(s: Bytes) {
    forall j :: 0 <= j < |s| ==> 48 <= s[j] <= 57
  }

  lemma {:induction false} DigitsBefore(digits: Bytes, junk: Bytes)
    requires AllDigit(digits) && (junk == [] || !(48 <= junk[0] <= 57))
    ensures DigitsLength(digits + junk) == |digits|
  {
    if digits == [] {
      assert digits + junk == junk;
    } else {
      assert digits[0] in digits && (digits + junk)[1..] == digits[1..] + junk;
      DigitsBefore(digits[1..], junk);
    }
  }

  function Value(digits: Bytes): nat
    requires AllDigit(digits)
  {
    if digits == [] then 0
    else
      assert digits[0] in digits;
      (digits[0] - 48) * Pow10(|digits| - 1) + Value(digits[1..])
  }

  function Pow10(n: nat): nat {
    if n == 0 then 1 else 10 * Pow10(n - 1)
  }

  lemma {:induction false} ValueLast(digits: Bytes, last: byte)
    requires AllDigit(digits) && 48 <= last <= 57
    ensures AllDigit(digits + [last]) && Value(digits + [last]) == 10 * Value(digits) + (last - 48)
  {
    if digits == [] {
      assert digits + [last] == [last] && [last][1..] == [];
      assert Pow10(0) == 1;
    } else {
      assert digits[0] in digits;
      assert (digits + [last])[1..] == digits[1..] + [last];
      ValueLast(digits[1..], last);
      TimesTen(digits[0] - 48, |digits|);
    }
  }

  lemma TimesTen(d: int, n: nat)
    requires n > 0
    ensures d * Pow10(n) == 10 * (d * Pow10(n - 1))
  {
    assert Pow10(n) == 10 * Pow10(n - 1);
    assert d * (10 * Pow10(n - 1)) == 10 * (d * Pow10(n - 1));
  }

  /** A decimal number: the first digit weighs most. */
  lemma {:induction false} DecimalIsValue(digits: Bytes)
    requires AllDigit(digits)
    ensures Decimal(digits) == Value(digits)
  {
    if digits == [] {
    } else {
      var most, last := digits[..|digits| - 1], digits[|digits| - 1];
      assert last in digits && digits == most + [last];
      DecimalIsValue(most);
      ValueLast(most, last);
    }
  }

  /**
   What the length is read from: white space, perhaps a sign, digits, and anything after them. A
   minus sign counts down from 2^64, and a number of more than 64 bits is refused.
   */
  lemma LengthIsRead(white: Bytes, sign: Bytes, digits: Bytes, junk: Bytes)
    requires White(white) && sign in [[], [43], [45]] && AllDigit(digits) && digits != []
    requires junk == [] || !(48 <= junk[0] <= 57)
    ensures var n := Value(digits);
      Stoul(white + (sign + (digits + junk)))
      == if n >= 18_446_744_073_709_551_616 then None
         else if sign == [45] && n > 0 then Some(18_446_744_073_709_551_616 - n)
         else Some(n)
  {
    hide SkipSpaces, Value, Decimal;
    var t, u := sign + (digits + junk), digits + junk;
    SkipsWhite(white, t);
    assert digits[0] in digits;
    NoWhite(t);
    assert sign == [] ==> t == u;
    assert sign != [] ==> t[1..] == u;
    DigitsBefore(digits, junk);
    assert u[..|digits|] == digits;
    DecimalIsValue(digits);
  }

  lemma NoWhite(t: Bytes)
    requires t != [] && t[0] > 32
    ensures SkipSpaces(t) == t
  {
  }

  /** Without a digit behind the white space and the sign there is no number. */
  lemma NoLengthIsRead(white: Bytes, sign: Bytes, junk: Bytes)
    requires White(white) && sign in [[], [43], [45]]
    requires junk != [] ==> !(48 <= junk[0] <= 57) && (sign == [] ==> !White(junk[..1]) && junk[0] !in [43, 45])
    ensures Stoul(white + (sign + junk)) == None
  {
    hide SkipSpaces;
    var t := sign + junk;
    SkipsWhite(white, t);
    assert sign == [] ==> t == junk;
    assert sign != [] ==> t[1..] == junk && t[..1][0] in [43, 45];
    NothingToSkip(t);
  }

  lemma NothingToSkip(t: Bytes)
    requires t == [] || !White(t[..1])
    ensures SkipSpaces(t) == t
  {
    if t != [] {
      assert t[..1] == [t[0]];
    }
  }

  /** content-length */
  predicate Declares(fields: seq<HeaderField>, length: nat) {
    match LastField(fields, [99, 111, 110, 116, 101, 110, 116, 45, 108, 101, 110, 103, 116, 104])
    case None => length == 0
    case Some(v) => v != [] && AllDigit(v) && Value(v) == length && length <= 8_388_608
  }

  lemma DeclaredIsRead(fields: seq<HeaderField>, length: nat)
    requires Declares(fields, length)
    ensures BodyLength(Collected(map[], fields)) == Some(length)
  {
    hide Collected, LastField, Stoul, Value;
    var key := [99, 111, 110, 116, 101, 110, 116, 45, 108, 101, 110, 103, 116, 104];
    CollectedIsLast(fields, key);
    if LastField(fields, key).Some? {
      var v := LastField(fields, key).value;
      LengthIsRead([], [], v, []);
      assert [] + ([] + (v + [])) == v;
    }
  }

  /** What the field says, and its limit of 8 MiB. */
  lemma LengthLimit(headers: map<Bytes, Bytes>)
    ensures var key: Bytes := [99, 111, 110, 116, 101, 110, 116, 45, 108, 101, 110, 103, 116, 104];
      && (key !in headers ==> BodyLength(headers) == Some(0))
      && (key in headers ==>
           BodyLength(headers) == if Stoul(headers[key]).Some? && Stoul(headers[key]).value <= 8_388_608 then Stoul(headers[key]) else None)
  {
  }

  // ---------- a whole request ----------

  /** name ": " value CR LF, for each field */
  function FieldLines(fields: seq<HeaderField>): Bytes {
    if fields == [] then [] else fields[0].name + [58, 32] + fields[0].value + [13, 10] + FieldLines(fields[1..])
  }

  function Wire(first: Bytes, fields: seq<HeaderField>, body: Bytes): Bytes {
    first + [13, 10] + FieldLines(fields) + [13, 10] + body
  }

  lemma {:induction false} LinesOfFields(fields: seq<HeaderField>)
    ensures HeadText(Rows(fields)) == FieldLines(fields) + [13, 10]
  {
    if fields == [] {
    } else {
      LinesOfFields(fields[1..]);
      assert Rows(fields)[1..] == Rows(fields[1..]);
    }
  }

  lemma WireIsHeadText(first: Bytes, fields: seq<HeaderField>, body: Bytes)
    ensures Wire(first, fields, body) == HeadText([first] + Rows(fields)) + body
  {
    hide Rows;
    LinesOfFields(fields);
    assert ([first] + Rows(fields))[1..] == Rows(fields);
  }

  /** A name without colon or line break, and a value without a line break or blanks around it. */
  predicate Sendable(f: HeaderField) {
    && f.name != [] && (forall c | c in f.name :: c !in [58, 13, 10]) && (forall c | c in f.value :: c !in [13, 10])
    && (f.value != [] ==> f.value[0] !in [32, 9] && f.value[|f.value| - 1] !in [32, 9])
  }

  lemma {:induction false} SendableIsGood(fields: seq<HeaderField>)
    requires forall f | f in fields :: Sendable(f)
    ensures GoodFields(fields)
  {
    if fields == [] {
    } else {
      assert fields[0] in fields;
      OneIsGood(fields[0]);
      SendableIsGood(fields[1..]);
    }
  }

  lemma OneIsGood(f: HeaderField)
    requires Sendable(f)
    ensures GoodField(f)
  {
    if f.value != [] {
      assert f.value[|f.value| - 1] in f.value;
    }
  }

  /**
   A request with its parts between blanks, its fields one to a line and a body of the declared
   length is read back part by part, and exactly its bytes are consumed.
   */
  lemma RequestReadBack(verb: Bytes, path: Bytes, query: Option<Bytes>, version: Bytes, fields: seq<HeaderField>,
                        body: Bytes, more: Bytes, key: Bytes)
    requires Solid(verb) && Solid(version) && Solid(path + if query.Some? then [63] + query.value else []) && 63 !in path
    requires (forall f | f in fields :: Sendable(f)) && Declares(fields, |body|)
    requires |Wire(verb + [32] + (path + if query.Some? then [63] + query.value else []) + [32] + version, fields, [])| <= 65_536
    ensures var text := Wire(verb + [32] + (path + if query.Some? then [63] + query.value else []) + [32] + version, fields, body);
      && Read(text + more).consumed == |text| && Read(text + more).request.Some?
      && var r := Read(text + more).request.value;
      && r.verb == verb && r.path == path && r.query == (if query.Some? then query.value else []) && r.body == body
      && match LastField(fields, key)
         case None => key !in r.headers
         case Some(v) => key in r.headers && r.headers[key] == v
  {
    hide Read, Wire, BodyLength, Collected, LastField, Declares, RequestText, GoodFields, Sendable;
    var target := path + if query.Some? then [63] + query.value else [];
    assert target == Target(path, query);
    RequestIsWire(verb, path, query, version, fields, body);
    RequestIsWire(verb, path, query, version, fields, []);
    SendableIsGood(fields);
    DeclaredIsRead(fields, |body|);
    CollectedIsLast(fields, key);
    RequestRoundTrip(verb, path, query, version, fields, body, more);
  }

  lemma RequestIsWire(verb: Bytes, path: Bytes, query: Option<Bytes>, version: Bytes, fields: seq<HeaderField>, body: Bytes)
    ensures RequestText(verb, path, query, version, fields, body)
         == Wire(verb + [32] + (path + if query.Some? then [63] + query.value else []) + [32] + version, fields, body)
  {
    hide Wire, HeadText, Rows;
    assert path + [] == path;
    assert query.Some? ==> path + [63] + query.value == path + ([63] + query.value);
    WireIsHeadText(verb + [32] + Target(path, query) + [32] + version, fields, body);
  }
}
