/** digestauth.c: nonces that carry their own time, the digests of RFC 2617 built by successive
    MD5 updates, and the check of an Authorization header. A C string is a string without its
    NUL; a character stands for its low eight bits. */
module DigestAuth {
  import opened Options
  import opened HeaderFields
  import opened Md5Spec
  import opened Md5

  const MAX_USERNAME_LENGTH := 128
  const MAX_REALM_LENGTH := 256
  const MAX_AUTH_RESPONSE_LENGTH := 128
  const MAX_NONCE_LENGTH := 129
  const MAX_QOP_LENGTH := 15
  const MAX_NC_LENGTH := 20
  const NONCE_PRIV_KEY := "h5ffku7rlxp6tjf2xamnfqjev5ul"

  function Bytes(s: string): (b: seq<Byte>)
    ensures |b| == |s|
  {
    seq(|s|, i requires 0 <= i < |s| => s[i] as int % 256)
  }

  lemma BytesConcat(a: string, b: string)
    ensures Bytes(a + b) == Bytes(a) + Bytes(b)
  {
  }

  // ---- hexadecimal digits, both ways ----

  function HexDigit(j: nat): char
    requires j < 16
  {
    if j <= 9 then (j + '0' as int) as char else (j + 'a' as int - 10) as char
  }

  function Hex(bin: seq<Byte>): (s: string)
    ensures |s| == 2 * |bin|
  {
    if bin == [] then ""
    else Hex(bin[..|bin| - 1]) + [HexDigit(bin[|bin| - 1] / 16), HexDigit(bin[|bin| - 1] % 16)]
  }

  // cvthex
  method CvtHex(bin: seq<Byte>, hex: array<char>)
    requires 2 * |bin| < hex.Length
    modifies hex
    ensures hex[..2 * |bin|] == Hex(bin) && hex[2 * |bin|] == '\0'
    ensures hex[2 * |bin| + 1..] == old(hex[2 * |bin| + 1..])
  {
    var i := 0;
    while i < |bin|
      invariant i <= |bin|
      invariant hex[..2 * i] == Hex(bin[..i])
      invariant hex[2 * |bin| + 1..] == old(hex[2 * |bin| + 1..])
    {
      assert bin[..i + 1][..i] == bin[..i];
      hex[i * 2] := HexDigit(bin[i] / 16);
      hex[i * 2 + 1] := HexDigit(bin[i] % 16);
      assert hex[..2 * (i + 1)] == Hex(bin[..i]) + [HexDigit(bin[i] / 16), HexDigit(bin[i] % 16)];
      i := i + 1;
    }
    assert bin[..|bin|] == bin;
    hex[|bin| * 2] := '\0';
  }

  predicate IsHexDigit(c: char) {
    '0' <= c <= '9' || 'a' <= c <= 'f' || 'A' <= c <= 'F'
  }

  function DigitValue(c: char): (v: nat)
    requires IsHexDigit(c)
    ensures v < 16
  {
    if c <= '9' then c as int - '0' as int
    else if c <= 'F' then c as int - 'A' as int + 10
    else c as int - 'a' as int + 10
  }

  predicate AllHex(s: string) {
    forall i :: 0 <= i < |s| ==> IsHexDigit(s[i])
  }

  function ValueOf(s: string): nat
    requires AllHex(s)
  {
    if s == "" then 0 else 16 * ValueOf(s[..|s| - 1]) + DigitValue(s[|s| - 1])
  }

  // The bytes as one number, high-order byte first.
  function BigEndian(bin: seq<Byte>): nat {
    if bin == [] then 0 else 256 * BigEndian(bin[..|bin| - 1]) + bin[|bin| - 1]
  }

  lemma HexDigitUndone(j: nat)
    requires j < 16
    ensures IsHexDigit(HexDigit(j)) && DigitValue(HexDigit(j)) == j
  {
  }

  // Reading back what cvthex wrote gives the number that was written.
  lemma {:induction false} HexUndone(bin: seq<Byte>)
    ensures AllHex(Hex(bin)) && ValueOf(Hex(bin)) == BigEndian(bin)
  {
    if bin != [] {
      var init, b := bin[..|bin| - 1], bin[|bin| - 1];
      HexUndone(init);
      HexDigitUndone(b / 16);
      HexDigitUndone(b % 16);
      var s, high := Hex(bin), HexDigit(b / 16);
      assert s[..|s| - 1] == Hex(init) + [high];
      assert (Hex(init) + [high])[..|Hex(init)|] == Hex(init);
      assert ValueOf(Hex(init) + [high]) == 16 * ValueOf(Hex(init)) + b / 16;
    }
  }

  // ---- strtoul with base 16 ----

  // isspace
  predicate IsSpace(c: char) {
    c == ' ' || '\t' <= c <= '\r'
  }

  function SkipSpaces(s: string): (k: nat)
    ensures k <= |s|
    ensures s != "" && !IsSpace(s[0]) ==> k == 0
  {
    if s != "" && IsSpace(s[0]) then 1 + SkipSpaces(s[1..]) else 0
  }

  function CountHex(s: string): (k: nat)
    ensures k <= |s| && AllHex(s[..k])
    ensures AllHex(s) ==> k == |s|
  {
    if s != "" && IsHexDigit(s[0]) then
      assert s[..1 + CountHex(s[1..])] == [s[0]] + s[1..][..CountHex(s[1..])];
      1 + CountHex(s[1..])
    else 0
  }

  // The value before reduction to an unsigned width, and how many characters are read.
  function StrToUl(s: string): (r: (int, nat))
    ensures r.1 <= |s|
    ensures s != "" && AllHex(s) ==> r == (ValueOf(s) as int, |s|)
  {
    var k := SkipSpaces(s);
    var minus := k < |s| && s[k] == '-';
    var start := if minus || (k < |s| && s[k] == '+') then k + 1 else k;
    var prefixed := start + 2 < |s| && s[start] == '0' && (s[start + 1] == 'x' || s[start + 1] == 'X')
      && IsHexDigit(s[start + 2]);
    var from := if prefixed then start + 2 else start;
    var count := CountHex(s[from..]);
    assert s != "" && AllHex(s) ==>
      k == 0 && IsHexDigit(s[0]) && from == 0 && s[from..] == s && s[from..][..count] == s;
    if count == 0 then (0, 0) else
      var v: int := ValueOf(s[from..][..count]);
      (if minus then -v else v, from + count)
  }

  // ---- nonces ----

  function TimeBytes(n: Word): (b: seq<Byte>)
    ensures |b| == 4
  {
    [n / 0x100_0000, n / 0x1_0000 % 0x100, n / 0x100 % 0x100, n % 0x100]
  }

  lemma TimeBytesUndone(n: Word)
    ensures BigEndian(TimeBytes(n)) == n
  {
    var b := TimeBytes(n);
    assert b[..3][..2] == b[..2] && b[..3][..2][..1] == b[..1];
    assert BigEndian(b[..1]) == n / 0x100_0000;
    assert BigEndian(b[..2]) == n / 0x1_0000;
    assert BigEndian(b[..3]) == n / 0x100;
  }

  // H(timestamp ":" method ":" random ":" uri ":" realm) and then the timestamp.
  function NonceAt(n: Word, httpMethod: string, rnd: string, uri: string, realm: string): (nonce: string)
    ensures |nonce| == 40
  {
    Hex(Digest(TimeBytes(n) + Bytes(":" + httpMethod + ":" + rnd + ":" + uri + ":" + realm))) + Hex(TimeBytes(n))
  }

  // The time that a nonce carries in its last eight characters. In front of a shorter nonce stands
  // something the caller does not know; 'stray' is what strtoul makes of it.
  function NonceTime(nonce: string, stray: Word): Word {
    if |nonce| < 8 then stray else StrToUl(nonce[|nonce| - 8..]).0 % TWO32
  }

  lemma NonceEnd(n: Word, httpMethod: string, rnd: string, uri: string, realm: string)
    ensures NonceAt(n, httpMethod, rnd, uri, realm)[32..] == Hex(TimeBytes(n))
  {
    hide Digest, TimeBytes, Hex;
  }

  lemma NonceCarriesTime(n: Word, httpMethod: string, rnd: string, uri: string, realm: string, stray: Word)
    ensures NonceTime(NonceAt(n, httpMethod, rnd, uri, realm), stray) == n
  {
    hide NonceAt, Digest, TimeBytes, Hex, StrToUl, ValueOf, BigEndian, AllHex;
    NonceEnd(n, httpMethod, rnd, uri, realm);
    HexUndone(TimeBytes(n));
    TimeBytesUndone(n);
  }

  // ---- RFC 2617, sections 3.2.1 and 3.2.2 ----

  // H(data), printed as 32 hexadecimal digits.
  function HexHash(data: string): (h: string)
    ensures |h| == 32
  {
    Hex(Digest(Bytes(data)))
  }

  function KD(secret: string, data: string): string {
    HexHash(secret + ":" + data)
  }

  // H(A1); a session's A1 holds the first digest as 16 bytes, as in the RFC's sample code.
  function SessionKey(session: bool, username: string, realm: string, password: string,
      nonce: string, cnonce: string): (h: string)
    ensures |h| == 32
  {
    if session then
      Hex(Digest(Digest(Bytes(username + ":" + realm + ":" + password)) + Bytes(":" + nonce + ":" + cnonce)))
    else HexHash(username + ":" + realm + ":" + password)
  }

  function RequestDigest(ha1: string, nonce: string, nc: string, cnonce: string, qop: string,
      httpMethod: string, uri: string): string
  {
    KD(ha1, nonce + ":" + (if qop != "" then nc + ":" + cnonce + ":" + qop + ":" else "")
            + HexHash(httpMethod + ":" + uri))
  }

  // ---- the methods that build them by successive updates ----

  // MD5Update(&md5, s, strlen(s))
  method Feed(md5: MD5Context, s: string, ghost start: seq<Byte>, ghost text: string)
    requires md5.Valid() && md5.message == start + Bytes(text) && |s| < TWO32
    modifies md5`bits0, md5`bits1, md5`message, md5`done, md5.buf, md5.input
    ensures md5.message == start + Bytes(text + s)
    ensures md5.Valid()
  {
    hide MD5Context.Valid;
    md5.Update(Bytes(s));
    BytesConcat(text, s);
    assert (start + Bytes(text)) + Bytes(s) == start + (Bytes(text) + Bytes(s));
  }

  // MD5Final and cvthex
  method FinalHex(md5: MD5Context) returns (s: string)
    requires md5.Valid()
    modifies md5, md5.buf, md5.input
    ensures s == Hex(Digest(old(md5.message)))
  {
    hide MD5Context.Valid, Digest, Hex;
    var digest := md5.Final();
    var hex := new char[33];
    CvtHex(digest, hex);
    s := hex[..32];
  }

  method CalculateNonce(nonceTime: Word, httpMethod: string, rnd: string, uri: string, realm: string)
    returns (nonce: string)
    requires |httpMethod| < TWO32 && |rnd| < TWO32 && |uri| < TWO32 && |realm| < TWO32
    ensures nonce == NonceAt(nonceTime, httpMethod, rnd, uri, realm)
  {
    hide MD5Context.Valid, Digest, Hex, Bytes;
    var md5 := new MD5Context();
    var timestamp := TimeBytes(nonceTime);
    md5.Update(timestamp);
    Empty(timestamp);
    Feed(md5, ":", timestamp, "");
    Feed(md5, httpMethod, timestamp, "" + ":");
    Feed(md5, ":", timestamp, "" + ":" + httpMethod);
    ghost var text := "" + ":" + httpMethod + ":";
    if |rnd| > 0 {
      Feed(md5, rnd, timestamp, text);
    } else {
      assert text + rnd == text;
    }
    text := text + rnd;
    Feed(md5, ":", timestamp, text);
    Feed(md5, uri, timestamp, text + ":");
    Feed(md5, ":", timestamp, text + ":" + uri);
    Feed(md5, realm, timestamp, text + ":" + uri + ":");
    assert text + ":" + uri + ":" + realm == ":" + httpMethod + ":" + rnd + ":" + uri + ":" + realm;
    var hash := FinalHex(md5);
    var timestamphex := new char[9];
    CvtHex(timestamp, timestamphex);
    nonce := hash + timestamphex[..8];
  }

  lemma Empty(start: seq<Byte>)
    ensures [] + start == start + Bytes("")
  {
  }

  // The second digest of a session: over the bytes of the first one.
  method SessionHa1(ha1: seq<Byte>, nonce: string, cnonce: string) returns (h: seq<Byte>)
    requires |ha1| == 16 && |nonce| < TWO32 && |cnonce| < TWO32
    ensures h == Digest(ha1 + Bytes(":" + nonce + ":" + cnonce))
  {
    hide MD5Context.Valid, Digest, Bytes;
    var md5 := new MD5Context();
    md5.Update(ha1);
    Empty(ha1);
    Feed(md5, ":", ha1, "");
    Feed(md5, nonce, ha1, "" + ":");
    Feed(md5, ":", ha1, "" + ":" + nonce);
    Feed(md5, cnonce, ha1, "" + ":" + nonce + ":");
    assert "" + ":" + nonce + ":" + cnonce == ":" + nonce + ":" + cnonce;
    h := md5.Final();
  }

  method DigestCalcHa1(alg: string, username: string, realm: string, password: string, nonce: string, cnonce: string)
    returns (sessionkey: string)
    requires |username| < TWO32 && |realm| < TWO32 && |password| < TWO32 && |nonce| < TWO32 && |cnonce| < TWO32
    ensures sessionkey == SessionKey(SameName(alg, "md5-sess"), username, realm, password, nonce, cnonce)
    ensures !SameName(alg, "md5-sess") ==>
              sessionkey == Hex(Digest(Bytes(username + ":" + realm + ":" + password)))
  {
    hide MD5Context.Valid, Digest, Hex, Bytes;
    var md5 := new MD5Context();
    Empty([]);
    Feed(md5, username, [], "");
    Feed(md5, ":", [], "" + username);
    Feed(md5, realm, [], "" + username + ":");
    Feed(md5, ":", [], "" + username + ":" + realm);
    Feed(md5, password, [], "" + username + ":" + realm + ":");
    ghost var text := username + ":" + realm + ":" + password;
    assert "" + username + ":" + realm + ":" + password == text;
    assert [] + Bytes(text) == Bytes(text);
    var ha1 := md5.Final();
    if SameName(alg, "md5-sess") {
      ha1 := SessionHa1(ha1, nonce, cnonce);
    }
    var hex := new char[33];
    CvtHex(ha1, hex);
    sessionkey := hex[..32];
  }

  // The first half of digest_calc_response: H(A2).
  method Ha2Hex(httpMethod: string, uri: string) returns (ha2: string)
    requires |httpMethod| < TWO32 && |uri| < TWO32
    ensures ha2 == HexHash(httpMethod + ":" + uri)
  {
    hide MD5Context.Valid, Digest, Hex, Bytes;
    var md5 := new MD5Context();
    Empty([]);
    Feed(md5, httpMethod, [], "");
    Feed(md5, ":", [], "" + httpMethod);
    Feed(md5, uri, [], "" + httpMethod + ":");
    assert "" + httpMethod + ":" + uri == httpMethod + ":" + uri;
    assert [] + Bytes(httpMethod + ":" + uri) == Bytes(httpMethod + ":" + uri);
    ha2 := FinalHex(md5);
  }

  method DigestCalcResponse(ha1: string, nonce: string, noncecount: string, cnonce: string, qop: string,
      httpMethod: string, uri: string)
    returns (response: string)
    requires |ha1| == 32 && |nonce| < TWO32 && |noncecount| < TWO32 && |cnonce| < TWO32 && |qop| < TWO32
    requires |httpMethod| < TWO32 && |uri| < TWO32
    ensures response == RequestDigest(ha1, nonce, noncecount, cnonce, qop, httpMethod, uri)
    ensures var ha2 := Hex(Digest(Bytes(httpMethod + ":" + uri)));
      response == Hex(Digest(Bytes(
        ha1 + ":" + nonce + ":" + (if qop != "" then noncecount + ":" + cnonce + ":" + qop + ":" + ha2 else ha2))))
  {
    RequestDigestIs(ha1, nonce, noncecount, cnonce, qop, httpMethod, uri);
    hide MD5Context.Valid, Digest, Hex, Bytes, HexHash;
    var ha2 := Ha2Hex(httpMethod, uri);
    var md5 := new MD5Context();
    Empty([]);
    Feed(md5, ha1, [], "");
    Feed(md5, ":", [], "" + ha1);
    Feed(md5, nonce, [], "" + ha1 + ":");
    Feed(md5, ":", [], "" + ha1 + ":" + nonce);
    ghost var text, middle := ha1 + ":" + nonce + ":", "";
    assert "" + ha1 + ":" + nonce + ":" == text;
    if qop != "" {
      FeedQop(md5, noncecount, cnonce, qop, text);
      middle := noncecount + ":" + cnonce + ":" + qop + ":";
    } else {
      assert text + "" == text;
    }
    Feed(md5, ha2, [], text + middle);
    RequestText(ha1, nonce, middle, ha2);
    response := FinalHex(md5);
    assert [] + Bytes(text + middle + ha2) == Bytes(text + middle + ha2);
    KDMeans(ha1, nonce + ":" + middle + ha2);
  }

  // Section 3.2.2.1, written out.
  lemma RequestDigestIs(ha1: string, nonce: string, nc: string, cnonce: string, qop: string, httpMethod: string,
      uri: string)
    ensures var ha2 := Hex(Digest(Bytes(httpMethod + ":" + uri)));
      RequestDigest(ha1, nonce, nc, cnonce, qop, httpMethod, uri) == Hex(Digest(Bytes(
        ha1 + ":" + nonce + ":" + (if qop != "" then nc + ":" + cnonce + ":" + qop + ":" + ha2 else ha2))))
  {
    hide Hex, Digest, Bytes;
    var ha2 := Hex(Digest(Bytes(httpMethod + ":" + uri)));
    assert HexHash(httpMethod + ":" + uri) == ha2;
    var middle := nc + ":" + cnonce + ":" + qop + ":";
    assert ha1 + ":" + (nonce + ":" + middle + ha2) == ha1 + ":" + nonce + ":" + (middle + ha2);
    assert ha1 + ":" + (nonce + ":" + "" + ha2) == ha1 + ":" + nonce + ":" + ha2;
  }

  lemma KDMeans(secret: string, data: string)
    ensures KD(secret, data) == Hex(Digest(Bytes(secret + ":" + data)))
  {
  }

  lemma RequestText(ha1: string, nonce: string, middle: string, ha2: string)
    ensures ha1 + ":" + nonce + ":" + middle + ha2 == ha1 + ":" + (nonce + ":" + middle + ha2)
  {
  }

  method FeedQop(md5: MD5Context, noncecount: string, cnonce: string, qop: string, ghost text: string)
    requires md5.Valid() && md5.message == [] + Bytes(text)
    requires |noncecount| < TWO32 && |cnonce| < TWO32 && |qop| < TWO32
    modifies md5`bits0, md5`bits1, md5`message, md5`done, md5.buf, md5.input
    ensures md5.message == [] + Bytes(text + (noncecount + ":" + cnonce + ":" + qop + ":"))
    ensures md5.Valid()
  {
    hide MD5Context.Valid, Bytes;
    Feed(md5, noncecount, [], text);
    Feed(md5, ":", [], text + noncecount);
    Feed(md5, cnonce, [], text + noncecount + ":");
    Feed(md5, ":", [], text + noncecount + ":" + cnonce);
    Feed(md5, qop, [], text + noncecount + ":" + cnonce + ":");
    Feed(md5, ":", [], text + noncecount + ":" + cnonce + ":" + qop);
    assert text + noncecount + ":" + cnonce + ":" + qop + ":" == text + (noncecount + ":" + cnonce + ":" + qop + ":");
  }

  // ---- http_digest_auth_check ----

  datatype Verdict = Yes | No | InvalidNonce

  // What is asked and what the server knows: the request's method, the protected url, the realm
  // and the one account, and how long a nonce lives.
  datatype Site = Site(httpMethod: string, url: string, realm: string, username: string, password: string,
      timeout: Word)

  function NonceFor(site: Site, n: Word): string {
    NonceAt(n, site.httpMethod, NONCE_PRIV_KEY, site.url, site.realm)
  }

  predicate InTime(n: Word, timeout: Word, now: Word) {
    n + timeout < TWO32 && now <= n + timeout
  }

  // The value of a field as a buffer of the given size holds it; "" when there is none.
  function Value(fields: seq<Field>, key: string, size: nat): string {
    Truncated(FirstValue(fields, key), size)
  }

  // The values of the header that the decision reads.
  datatype Credentials = Credentials(username: string, realm: string, nonce: string, uri: string,
    cnonce: string, qop: string, nc: string, response: string)

  function ReadCredentials(fields: seq<Field>): Credentials {
    var uri := FirstValue(fields, "uri");
    Credentials(Value(fields, "username", MAX_USERNAME_LENGTH), Value(fields, "realm", MAX_REALM_LENGTH),
      Value(fields, "nonce", MAX_NONCE_LENGTH), if uri.Some? then uri.value else "",
      Value(fields, "cnonce", MAX_NONCE_LENGTH), Value(fields, "qop", MAX_QOP_LENGTH),
      Value(fields, "nc", MAX_NC_LENGTH), Value(fields, "response", MAX_AUTH_RESPONSE_LENGTH))
  }

  function Expected(site: Site, c: Credentials): string {
    RequestDigest(HexHash(site.username + ":" + site.realm + ":" + site.password), c.nonce, c.nc, c.cnonce, c.qop,
      site.httpMethod, c.uri)
  }

  const ULONG_MAX := 0xffff_ffff_ffff_ffff
  const LONG_MAX := 0x7fff_ffff_ffff_ffff

  // The return value of strtoul, for an unsigned long of 64 bits.
  function UnsignedLong(v: int): int {
    if -ULONG_MAX <= v <= ULONG_MAX then v % (ULONG_MAX + 1) else ULONG_MAX
  }

  // The nonce count is read to its end by strtoul, and is not LONG_MAX while errno says ERANGE.
  predicate CountIsRead(nc: string, rangeError: bool) {
    StrToUl(nc).1 == |nc| && !(UnsignedLong(StrToUl(nc).0) == LONG_MAX && rangeError)
  }

  // What the decision depends on besides header and site: the clock, what stands in front of a
  // short nonce, and whether errno is ERANGE when the nonce count has been read.
  datatype Surroundings = Surroundings(now: Word, stray: Word, rangeError: bool)

  // The decision, by tests in the order of the source.
  function Decide(site: Site, c: Credentials, at: Surroundings): Verdict {
    if c.username == "" || c.username != site.username then No
    else if c.realm == "" || c.realm != site.realm then No
    else if c.nonce == "" || c.uri == "" then No
    else if !InTime(NonceTime(c.nonce, at.stray), site.timeout, at.now) then InvalidNonce
    else if !(site.url <= c.uri) then No
    else if c.nonce != NonceFor(site, NonceTime(c.nonce, at.stray)) then InvalidNonce
    else if c.cnonce == "" || c.qop != "auth" || c.nc == "" || c.response == "" then No
    else if !CountIsRead(c.nc, at.rangeError) then No
    else if c.response == Expected(site, c) then Yes else No
  }

  // Everything but the nonce is right.
  predicate Matches(site: Site, c: Credentials, rangeError: bool) {
    && c.username == site.username != "" && c.realm == site.realm != ""
    && site.url <= c.uri != "" && c.cnonce != "" && c.qop == "auth" && c.nc != "" && CountIsRead(c.nc, rangeError)
    && c.response == Expected(site, c)
  }

  lemma ExpectedNotEmpty(site: Site, c: Credentials)
    ensures Expected(site, c) != ""
  {
    hide HexHash;
    assert |HexHash(HexHash(site.username + ":" + site.realm + ":" + site.password) + ":"
      + (c.nonce + ":" + (if c.qop != "" then c.nc + ":" + c.cnonce + ":" + c.qop + ":" else "")
      + HexHash(site.httpMethod + ":" + c.uri)))| == 32;
  }

  // A header is accepted exactly when its nonce is one that this server issues for some time
  // still alive now, and the rest matches.
  lemma AcceptedIff(site: Site, c: Credentials, at: Surroundings)
    ensures Decide(site, c, at) == Yes <==>
      Matches(site, c, at.rangeError)
      && exists n: Word ::
           c.nonce == NonceFor(site, n) && n + site.timeout < 0x1_0000_0000 && at.now <= n + site.timeout
  {
    hide NonceTime, NonceFor, Expected, CountIsRead;
    ExpectedNotEmpty(site, c);
    forall n: Word | c.nonce == NonceFor(site, n) ensures |c.nonce| == 40 && NonceTime(c.nonce, at.stray) == n {
      NonceForTime(site, n, at.stray);
    }
  }

  // With account, realm and uri right, a client is told to fetch a new nonce exactly when its own
  // is not one that this server issues for some time still alive.
  lemma InvalidNonceIff(site: Site, c: Credentials, at: Surroundings)
    requires c.nonce != "" && site.url <= c.uri != ""
    requires c.username == site.username != "" && c.realm == site.realm != ""
    ensures Decide(site, c, at) == InvalidNonce <==>
      !exists n: Word ::
         c.nonce == NonceFor(site, n) && n + site.timeout < 0x1_0000_0000 && at.now <= n + site.timeout
  {
    hide NonceTime, NonceFor, Expected, CountIsRead;
    forall n: Word | c.nonce == NonceFor(site, n) ensures NonceTime(c.nonce, at.stray) == n {
      NonceForTime(site, n, at.stray);
    }
  }

  lemma NonceForTime(site: Site, n: Word, stray: Word)
    ensures |NonceFor(site, n)| == 40 && NonceTime(NonceFor(site, n), stray) == n
  {
    NonceCarriesTime(n, site.httpMethod, NONCE_PRIV_KEY, site.url, site.realm, stray);
  }

  // When everything but the nonce is right, and the nonce is the one issued at time n, the request
  // is accepted while n + timeout, which must not wrap, is not past; after that the nonce is stale.
  lemma MatchingVerdict(site: Site, c: Credentials, n: Word, at: Surroundings)
    requires Matches(site, c, at.rangeError) && c.nonce == NonceFor(site, n)
    ensures Decide(site, c, at) ==
      if n + site.timeout < 0x1_0000_0000 && at.now <= n + site.timeout then Yes else InvalidNonce
  {
    hide NonceTime, NonceFor, Expected, CountIsRead;
    ExpectedNotEmpty(site, c);
    NonceForTime(site, n, at.stray);
  }

  // A request by the rules of RFC 2617 for the account of the site: the nonce count is eight
  // hexadecimal digits.
  predicate Honest(site: Site, c: Credentials) {
    && c.username == site.username != "" && c.realm == site.realm != ""
    && site.url <= c.uri != "" && c.cnonce != "" && c.qop == "auth" && |c.nc| == 8 && AllHex(c.nc)
    && c.response == Expected(site, c)
  }

  lemma {:induction false} ValueBound(s: string)
    requires AllHex(s)
    ensures ValueOf(s) < Power16(|s|)
  {
    if s != "" {
      ValueBound(s[..|s| - 1]);
    }
  }

  function Power16(n: nat): nat {
    if n == 0 then 1 else 16 * Power16(n - 1)
  }

  // Eight hexadecimal digits are read to their end and are not LONG_MAX, whatever errno says.
  lemma EightDigitsAreRead(nc: string, rangeError: bool)
    requires |nc| == 8 && AllHex(nc)
    ensures CountIsRead(nc, rangeError)
  {
    ValueBound(nc);
    assert Power16(4) == 0x1_0000 && Power16(8) == 0x1_0000_0000;
    hide ValueOf, AllHex, StrToUl;
    assert StrToUl(nc) == (ValueOf(nc) as int, 8);
  }

  lemma HonestMatches(site: Site, c: Credentials, rangeError: bool)
    requires Honest(site, c)
    ensures Matches(site, c, rangeError)
  {
    hide Expected, CountIsRead;
    EightDigitsAreRead(c.nc, rangeError);
  }

  // Such a request that answers the nonce issued at time n.
  lemma HonestVerdict(site: Site, c: Credentials, n: Word, at: Surroundings)
    requires Honest(site, c) && c.nonce == NonceFor(site, n)
    ensures Decide(site, c, at) ==
      if n + site.timeout < 0x1_0000_0000 && at.now <= n + site.timeout then Yes else InvalidNonce
  {
    HonestMatches(site, c, at.rangeError);
    hide Decide, Matches, Honest, NonceFor;
    MatchingVerdict(site, c, n, at);
  }

  // ---- the same for printed headers ----

  // The entry of a header with the given name has this value.
  predicate Carries(entries: seq<Entry>, name: string, value: string) {
    exists i :: 0 <= i < |entries| && SameName(entries[i].name, name) && entries[i].value == value
  }

  predicate CarriesAll(entries: seq<Entry>, c: Credentials) {
    && Carries(entries, "username", c.username) && Carries(entries, "realm", c.realm)
    && Carries(entries, "nonce", c.nonce) && Carries(entries, "uri", c.uri)
    && Carries(entries, "cnonce", c.cnonce) && Carries(entries, "qop", c.qop)
    && Carries(entries, "nc", c.nc) && Carries(entries, "response", c.response)
  }

  predicate Fits(c: Credentials) {
    && |c.username| < MAX_USERNAME_LENGTH && |c.realm| < MAX_REALM_LENGTH && |c.nonce| < MAX_NONCE_LENGTH
    && |c.cnonce| < MAX_NONCE_LENGTH && |c.qop| < MAX_QOP_LENGTH && |c.nc| < MAX_NC_LENGTH
    && |c.response| < MAX_AUTH_RESPONSE_LENGTH
  }

  predicate WellFormed(entries: seq<Entry>) {
    && (forall e :: e in entries ==> Printable(e))
    && forall i, j :: 0 <= i < j < |entries| ==> !SameName(entries[i].name, entries[j].name)
  }

  lemma CarriedIsRead(entries: seq<Entry>, name: string, value: string)
    requires WellFormed(entries) && Carries(entries, name, value)
    ensures FirstValue(Fields(PrintAll(entries)), name) == Some(value)
  {
    hide Fields, PrintAll, Printable, SameName;
    LookupPrinted(entries, name);
  }

  // In any order, quoted or not, with any other entries between them: the values come through.
  lemma PrintedIsRead(entries: seq<Entry>, c: Credentials)
    requires WellFormed(entries) && CarriesAll(entries, c) && Fits(c)
    ensures ReadCredentials(Fields(PrintAll(entries))) == c
  {
    hide Fields, PrintAll, WellFormed, Carries, FirstValue;
    CarriedIsRead(entries, "username", c.username);
    CarriedIsRead(entries, "realm", c.realm);
    CarriedIsRead(entries, "nonce", c.nonce);
    CarriedIsRead(entries, "uri", c.uri);
    CarriedIsRead(entries, "cnonce", c.cnonce);
    CarriedIsRead(entries, "qop", c.qop);
    CarriedIsRead(entries, "nc", c.nc);
    CarriedIsRead(entries, "response", c.response);
  }

  // The verdict on a printed header is that on the values it carries.
  lemma HeaderVerdict(site: Site, entries: seq<Entry>, c: Credentials, at: Surroundings)
    requires WellFormed(entries) && CarriesAll(entries, c) && Fits(c)
    ensures Decide(site, ReadCredentials(Fields(PrintAll(entries))), at) == Decide(site, c, at)
  {
    hide Decide, ReadCredentials, WellFormed, CarriesAll;
    PrintedIsRead(entries, c);
  }

  lemma HonestHeader(site: Site, entries: seq<Entry>, c: Credentials, n: Word, at: Surroundings)
    requires WellFormed(entries) && CarriesAll(entries, c) && Fits(c)
    requires Honest(site, c) && c.nonce == NonceFor(site, n)
    ensures Decide(site, ReadCredentials(Fields(PrintAll(entries))), at)
         == if n + site.timeout < 0x1_0000_0000 && at.now <= n + site.timeout then Yes else InvalidNonce
  {
    hide Decide, ReadCredentials, Honest, WellFormed, CarriesAll;
    HeaderVerdict(site, entries, c, at);
    HonestVerdict(site, c, n, at);
  }

  // ---- 'left', the size of the buffer for the uri ----

  function Size(fields: seq<Field>): nat {
    if fields == [] then 0 else |fields[0].name| + 1 + |fields[0].value| + Size(fields[1..])
  }

  lemma {:induction false} FieldsFit(s: string)
    ensures Size(Fields(s)) <= |s|
    decreases |s|
  {
    hide Front, AfterComma;
    var front := Front(s);
    if front.Some? {
      var next := AfterComma(front.value.1);
      SuffixShorter(next, front.value.1);
      FieldsFit(next);
      assert ([front.value.0] + Fields(next))[1..] == Fields(next);
    }
  }

  // The room that the field with this name takes in the header.
  function Room(fields: seq<Field>, key: string): nat {
    var v := FirstValue(fields, key);
    if v.Some? then |key| + 1 + |v.value| else 0
  }

  lemma RoomStep(fields: seq<Field>, key: string)
    requires fields != []
    ensures Room(fields, key) ==
      if SameName(fields[0].name, key) then Size(fields) - Size(fields[1..]) else Room(fields[1..], key)
  {
  }

  lemma DistinctKeys(name: string)
    ensures SameName(name, "username") ==>
      !SameName(name, "realm") && !SameName(name, "nonce") && !SameName(name, "uri")
    ensures SameName(name, "realm") ==> !SameName(name, "nonce") && !SameName(name, "uri")
    ensures SameName(name, "nonce") ==> !SameName(name, "uri")
  {
    if SameName(name, "realm") {
      assert Lower("realm"[0]) == 'r' && Lower("nonce"[0]) == 'n';
    }
  }

  lemma {:induction false} RoomsAreDisjoint(fields: seq<Field>)
    ensures Room(fields, "username") + Room(fields, "realm") + Room(fields, "nonce") + Room(fields, "uri")
      <= Size(fields)
  {
    if fields != [] {
      hide SameName, Room;
      RoomsAreDisjoint(fields[1..]);
      DistinctKeys(fields[0].name);
      RoomStep(fields, "username");
      RoomStep(fields, "realm");
      RoomStep(fields, "nonce");
      RoomStep(fields, "uri");
    } else {
      assert FirstValue(fields, "username") == None && FirstValue(fields, "realm") == None;
      assert FirstValue(fields, "nonce") == None && FirstValue(fields, "uri") == None;
    }
  }

  lemma TruncatedLength(fields: seq<Field>, key: string, size: nat)
    requires Value(fields, key, size) != ""
    ensures |key| + 1 + |Value(fields, key, size)| <= Room(fields, key)
  {
  }

  // When the three names are there, 'left' has not wrapped and the buffer of that size holds
  // the whole uri, whatever the header looks like.
  lemma UriNotCut(header: string)
    requires ReadCredentials(Fields(header)).username != "" && ReadCredentials(Fields(header)).realm != ""
    requires ReadCredentials(Fields(header)).nonce != ""
    ensures var c := ReadCredentials(Fields(header));
      var used := 8 + |c.username| + 5 + |c.realm| + 5 + |c.nonce|;
      used < |header| && Value(Fields(header), "uri", |header| - used) == c.uri
  {
    hide Fields, Value, FirstValue;
    var fields := Fields(header);
    FieldsFit(header);
    RoomsAreDisjoint(fields);
    TruncatedLength(fields, "username", MAX_USERNAME_LENGTH);
    TruncatedLength(fields, "realm", MAX_REALM_LENGTH);
    TruncatedLength(fields, "nonce", MAX_NONCE_LENGTH);
    UriWhole(fields, |header| - (8 + |ReadCredentials(fields).username| + 5 + |ReadCredentials(fields).realm|
      + 5 + |ReadCredentials(fields).nonce|));
  }

  lemma UriWhole(fields: seq<Field>, size: nat)
    requires Room(fields, "uri") < size
    ensures Value(fields, "uri", size) == ReadCredentials(fields).uri
  {
  }

  // The end of http_digest_auth_check: the response, once the other values have been read.
  method CheckResponse(site: Site, c: Credentials, at: Surroundings) returns (verdict: Verdict)
    requires |c.uri| < TWO32 && |site.httpMethod| < TWO32
    requires |site.username| < TWO32 && |site.realm| < TWO32 && |site.password| < TWO32
    requires |c.nonce| < TWO32 && |c.cnonce| < TWO32 && |c.nc| < TWO32 && |c.qop| < TWO32
    ensures verdict ==
      if !CountIsRead(c.nc, at.rangeError) then No else if c.response == Expected(site, c) then Yes else No
  {
    hide RequestDigest, HexHash, StrToUl;
    var (value, end) := StrToUl(c.nc);
    var nci := UnsignedLong(value);
    if end != |c.nc| || (LONG_MAX == nci && at.rangeError) {
      return No;
    }
    var ha1 := DigestCalcHa1("md5", site.username, site.realm, site.password, c.nonce, c.cnonce);
    var respexp := DigestCalcResponse(ha1, c.nonce, c.nc, c.cnonce, c.qop, site.httpMethod, c.uri);
    verdict := if c.response == respexp then Yes else No;
  }

  // The middle of it: the nonce's own time, the uri, the nonce and then the remaining values.
  method CheckNonce(site: Site, header: string, nonce: string, uri: string, at: Surroundings)
    returns (verdict: Verdict)
    requires |header| < TWO32 && |site.httpMethod| < TWO32 && |site.url| < TWO32 && |site.realm| < TWO32
    requires |site.username| < TWO32 && |site.password| < TWO32
    requires nonce != "" && nonce == ReadCredentials(Fields(header)).nonce
    requires uri != "" && uri == ReadCredentials(Fields(header)).uri && |uri| < TWO32
    requires ReadCredentials(Fields(header)).username == site.username != ""
    requires ReadCredentials(Fields(header)).realm == site.realm != ""
    ensures verdict == Decide(site, ReadCredentials(Fields(header)), at)
  {
    hide Fields, FirstValue, NonceTime, NonceAt, Expected, CountIsRead;
    ghost var c := ReadCredentials(Fields(header));
    var nonceTime := NonceTime(nonce, at.stray);
    var limit := (nonceTime + site.timeout) % TWO32;
    if at.now > limit || limit < nonceTime {
      return InvalidNonce;
    }
    if !(site.url <= uri) {
      return No;
    }
    var noncehashexp := CalculateNonce(nonceTime, site.httpMethod, NONCE_PRIV_KEY, site.url, site.realm);
    if nonce != noncehashexp {
      return InvalidNonce;
    }
    var cnonce := LookupSubValue(MAX_NONCE_LENGTH, header, "cnonce");
    if |cnonce| == 0 {
      return No;
    }
    var qop := LookupSubValue(MAX_QOP_LENGTH, header, "qop");
    if |qop| == 0 || (qop != "auth" && qop != "") {
      return No;
    }
    var nc := LookupSubValue(MAX_NC_LENGTH, header, "nc");
    if |nc| == 0 {
      return No;
    }
    var response := LookupSubValue(MAX_AUTH_RESPONSE_LENGTH, header, "response");
    if |response| == 0 {
      return No;
    }
    verdict := CheckResponse(site, Credentials(site.username, site.realm, nonce, uri, cnonce, qop, nc, response), at);
  }

  method HttpDigestAuthCheck(site: Site, header: string, at: Surroundings) returns (verdict: Verdict)
    requires |header| < TWO32 && |site.httpMethod| < TWO32 && |site.url| < TWO32 && |site.realm| < TWO32
    requires |site.username| < TWO32 && |site.password| < TWO32
    ensures verdict == Decide(site, ReadCredentials(Fields(header)), at)
  {
    hide Fields, FirstValue, Value, NonceTime, NonceFor, Expected, CountIsRead;
    ghost var c := ReadCredentials(Fields(header));
    FieldsFit(header);
    RoomsAreDisjoint(Fields(header));
    var left: nat := |header|;
    var un := LookupSubValue(MAX_USERNAME_LENGTH, header, "username");
    IsValue(un, Fields(header), "username", MAX_USERNAME_LENGTH);
    if |un| == 0 || site.username != un {
      return No;
    }
    TruncatedLength(Fields(header), "username", MAX_USERNAME_LENGTH);
    left := left - (8 + |un|);
    var r := LookupSubValue(MAX_REALM_LENGTH, header, "realm");
    IsValue(r, Fields(header), "realm", MAX_REALM_LENGTH);
    if |r| == 0 || site.realm != r {
      return No;
    }
    TruncatedLength(Fields(header), "realm", MAX_REALM_LENGTH);
    left := left - (5 + |r|);
    var nonce := LookupSubValue(MAX_NONCE_LENGTH, header, "nonce");
    IsValue(nonce, Fields(header), "nonce", MAX_NONCE_LENGTH);
    if |nonce| == 0 {
      return No;
    }
    TruncatedLength(Fields(header), "nonce", MAX_NONCE_LENGTH);
    left := left - (5 + |nonce|);
    UriNotCut(header);
    var uri := LookupSubValue(left, header, "uri");
    IsValue(uri, Fields(header), "uri", left);
    if |uri| == 0 {
      return No;
    }
    UriShort(Fields(header));
    verdict := CheckNonce(site, header, nonce, uri, at);
  }

  lemma IsValue(s: string, fields: seq<Field>, key: string, size: nat)
    requires s == Truncated(FirstValue(fields, key), size)
    ensures s == Value(fields, key, size)
  {
  }

  lemma UriShort(fields: seq<Field>)
    ensures |ReadCredentials(fields).uri| <= Room(fields, "uri")
  {
  }
}
