/** The Basic credentials of the admin pages (section 2 of RFC 7617). */
module BasicAuth {
  import opened Bytes
  import opened Wrappers
  import opened Base64
  import opened Http
  import opened HttpMessages
  import HttpGrammar

  type Admins = map<Bytes, Bytes>

  /** authorization */
  const AUTHORIZATION: Bytes := [97, 117, 116, 104, 111, 114, 105, 122, 97, 116, 105, 111, 110]
  /** "Basic " */
  const BASIC: Bytes := [66, 97, 115, 105, 99, 32]

  datatype Credentials = Credentials(user: Bytes, pass: Bytes)

  /** The password may hold colons, the user may not. */
  function Split(text: Bytes): Option<Credentials> {
    var colon := Http.IndexOf(text, COLON);
    if colon == |text| then None else Some(Credentials(text[..colon], text[colon + 1..]))
  }

  /** Who a header says it is from. */
  function Claimed(header: Bytes): Option<Credentials> {
    if BASIC <= header then Split(Decode(header[|BASIC|..])) else None
  }

  predicate Knows(admins: Admins, c: Credentials) {
    c.user in admins && admins[c.user] == c.pass
  }

  predicate Accepts(admins: Admins, headers: map<Bytes, Bytes>) {
    || admins == map[]
    || (&& AUTHORIZATION in headers
        && Claimed(headers[AUTHORIZATION]).Some?
        && Knows(admins, Claimed(headers[AUTHORIZATION]).value))
  }

  method CheckBasicAuth(admins: Admins, request: Request) returns (ok: bool)
    ensures ok == Accepts(admins, request.headers)
  {
    if admins == map[] {
      return true;
    }
    if AUTHORIZATION !in request.headers || !(BASIC <= request.headers[AUTHORIZATION]) {
      return false;
    }
    var decoded := Base64Decode(request.headers[AUTHORIZATION][|BASIC|..]);
    var colon := Http.IndexOf(decoded, COLON);
    if colon == |decoded| {
      return false;
    }
    var user, pass := decoded[..colon], decoded[colon + 1..];
    return user in admins && admins[user] == pass;
  }

  function HeaderFor(c: Credentials): Bytes {
    BASIC + EncodeBlock(c.user + [COLON] + c.pass)
  }

  lemma ClaimRoundTrip(c: Credentials)
    requires COLON !in c.user
    ensures Claimed(HeaderFor(c)) == Some(c)
  {
    hide EncodeBlock, Decode;
    var text := c.user + [COLON] + c.pass;
    RoundTrip(text);
    assert HeaderFor(c)[|BASIC|..] == EncodeBlock(text);
    IndexOfAfter(c.user, COLON, c.pass);
    assert text[..|c.user|] == c.user && text[|c.user| + 1..] == c.pass;
  }

  /** With any admins at all, the header of a user and a password is accepted exactly when the table maps one to the other. */
  lemma AcceptedIffKnown(admins: Admins, headers: map<Bytes, Bytes>, user: Bytes, pass: Bytes)
    requires admins != map[] && 58 !in user
    // authorization: "Basic " and the credentials
    requires [97, 117, 116, 104, 111, 114, 105, 122, 97, 116, 105, 111, 110] in headers
    requires headers[[97, 117, 116, 104, 111, 114, 105, 122, 97, 116, 105, 111, 110]]
          == [66, 97, 115, 105, 99, 32] + EncodeBlock(user + [58] + pass)
    ensures Accepts(admins, headers) <==> user in admins && admins[user] == pass
  {
    ClaimRoundTrip(Credentials(user, pass));
  }

  /** The header is "Basic ", and behind it base64 of the user, the first colon and the password. */
  predicate Presents(headers: map<Bytes, Bytes>, token: Bytes, user: Bytes, pass: Bytes) {
    && [97, 117, 116, 104, 111, 114, 105, 122, 97, 116, 105, 111, 110] in headers
    && headers[[97, 117, 116, 104, 111, 114, 105, 122, 97, 116, 105, 111, 110]] == [66, 97, 115, 105, 99, 32] + token
    && Decode(token) == user + [58] + pass && 58 !in user
  }

  /** Without admins everybody is let in; otherwise exactly those who present what the table holds. */
  lemma AcceptsIff(admins: Admins, headers: map<Bytes, Bytes>)
    ensures Accepts(admins, headers) <==>
      admins == map[] || exists token, user, pass :: Presents(headers, token, user, pass) && user in admins && admins[user] == pass
  {
    hide Decode;
    if admins != map[] && Accepts(admins, headers) {
      var header := headers[AUTHORIZATION];
      var token, c := header[|BASIC|..], Claimed(header).value;
      assert header == BASIC + token;
      HttpGrammar.FirstAt(Decode(token), COLON);
      assert Decode(token) == c.user + [58] + c.pass;
      assert Presents(headers, token, c.user, c.pass);
    }
    if exists token, user, pass :: Presents(headers, token, user, pass) && user in admins && admins[user] == pass {
      var token, user, pass :| Presents(headers, token, user, pass) && user in admins && admins[user] == pass;
      PresentedIsClaimed(headers, token, user, pass);
    }
  }

  lemma PresentedIsClaimed(headers: map<Bytes, Bytes>, token: Bytes, user: Bytes, pass: Bytes)
    requires Presents(headers, token, user, pass)
    ensures AUTHORIZATION in headers && Claimed(headers[AUTHORIZATION]) == Some(Credentials(user, pass))
  {
    hide Decode;
    var header, text := headers[AUTHORIZATION], Decode(token);
    assert header[|BASIC|..] == token;
    IndexOfAfter(user, COLON, pass);
    assert text[..|user|] == user && text[|user| + 1..] == pass;
  }

  predicate LogsIn(admins: Admins, header: Bytes, user: Bytes) {
    Accepts(admins, map[AUTHORIZATION := header]) && Claimed(header).Some? && Claimed(header).value.user == user
  }

  /** An admin can log in at all if and only if the name holds no colon: one with a colon is in the table for nothing. */
  lemma CanLogInIff(admins: Admins, user: Bytes)
    requires user in admins
    ensures (exists header :: LogsIn(admins, header, user)) <==> COLON !in user
  {
    if COLON !in user {
      var c := Credentials(user, admins[user]);
      ClaimRoundTrip(c);
      assert LogsIn(admins, HeaderFor(c), user);
    }
    if exists header :: LogsIn(admins, header, user) {
      var header :| LogsIn(admins, header, user);
      HttpGrammar.FirstAt(Decode(header[|BASIC|..]), COLON);
    }
  }

  // ---------- over the wire ----------

  lemma {:induction false} EncodedIsInk(f: Bytes)
    ensures forall c | c in EncodeBlock(f) :: c > SPACE && c != COLON
  {
    hide DigitAt;
    if f == [] {
    } else {
      EncodedIsInk(f[Used(f)..]);
    }
  }

  lemma {:induction false} LastInkOfInk(s: Bytes)
    requires s != [] && s[|s| - 1] > SPACE
    ensures LastInk(s) == |s|
  {
  }

  lemma HeaderIsGood(c: Credentials)
    ensures GoodField(HeaderField(AUTHORIZATION, HeaderFor(c)))
  {
    hide EncodeBlock;
    var text := c.user + [COLON] + c.pass;
    EncodedIsInk(text);
    EncodedLengthIs(text);
    LettersAreClean(AUTHORIZATION);
    var h := HeaderFor(c);
    assert h[|h| - 1] in EncodeBlock(text);
    LastInkOfInk(h);
  }

  /**
   From the bytes of a request with one Authorization field to the decision, whatever else
   follows on the stream.
   */
  lemma LogInOverTheWire(admins: Admins, verb: Bytes, path: Bytes, query: Option<Bytes>, version: Bytes, c: Credentials, more: Bytes)
    requires admins != map[] && COLON !in c.user
    requires IsToken(verb) && IsToken(Target(path, query)) && IsToken(version) && QUESTION !in path
    requires |RequestText(verb, path, query, version, [HeaderField(AUTHORIZATION, HeaderFor(c))], [])| <= MAX_HEADER_SIZE
    ensures var text := RequestText(verb, path, query, version, [HeaderField(AUTHORIZATION, HeaderFor(c))], []);
      && Read(text + more).request.Some?
      && (Accepts(admins, Read(text + more).request.value.headers) <==> Knows(admins, c))
  {
    hide RequestText, Read, Accepts, HeaderFor, IsToken, Target, GoodFields, Collected, BodyLength;
    var fields := [HeaderField(AUTHORIZATION, HeaderFor(c))];
    OneField(c);
    RequestRoundTrip(verb, path, query, version, fields, [], more);
    HeaderIsLiteral(c);
    AcceptedIffKnown(admins, Collected(map[], fields), c.user, c.pass);
  }

  lemma HeaderIsLiteral(c: Credentials)
    ensures HeaderFor(c) == [66, 97, 115, 105, 99, 32] + EncodeBlock(c.user + [58] + c.pass)
  {
  }

  lemma OneField(c: Credentials)
    ensures var fields := [HeaderField(AUTHORIZATION, HeaderFor(c))];
      && GoodFields(fields)
      && Collected(map[], fields) == map[AUTHORIZATION := HeaderFor(c)]
      && BodyLength(Collected(map[], fields)) == Some(0)
  {
    hide HeaderFor, GoodField, ToLower;
    var fields := [HeaderField(AUTHORIZATION, HeaderFor(c))];
    HeaderIsGood(c);
    assert fields[1..] == [];
    LowerWord(AUTHORIZATION, AUTHORIZATION, 0);
    assert AUTHORIZATION[0..] == AUTHORIZATION;
    assert |AUTHORIZATION| != |CONTENT_LENGTH|;
  }
}
