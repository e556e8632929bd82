/** Proxy strings: `scheme://[user:password@]host:port`, or `host:port[:user[:password]]`. */
module ProxyString {
  import opened Options
  import opened Strings

  datatype Proxy = Proxy(scheme: string, host: string, port: int, user: Option<string>, password: Option<string>)

  // ---- Lower case and numbers ------------------------------------------------------------

  function LowerChar(c: char): char {
    if 'A' <= c <= 'Z' then c - 'A' + 'a' else c
  }

  function Lower(s: string): (t: string)
    ensures |t| == |s|
    ensures forall i :: 0 <= i < |s| ==> t[i] == LowerChar(s[i])
  {
    if s == "" then "" else [LowerChar(s[0])] + Lower(s[1..])
  }

  function DigitValue(c: char): nat {
    if '0' <= c <= '9' then (c - '0') as nat
    else if 'a' <= c <= 'z' then (c - 'a') as nat + 10
    else if 'A' <= c <= 'Z' then (c - 'A') as nat + 10
    else 36
  }

  /** Reads digits until the first character that is none. */
  function ReadDigits(s: string, radix: nat, acc: nat): nat {
    if s == "" || DigitValue(s[0]) >= radix then acc
    else ReadDigits(s[1..], radix, acc * radix + DigitValue(s[0]))
  }

  function ReadUnsigned(s: string): Option<nat> {
    var hex := "0x" <= s || "0X" <= s;
    var digits := if hex then s[2..] else s;
    var radix := if hex then 16 else 10;
    if digits == "" || DigitValue(digits[0]) >= radix then None else Some(ReadDigits(digits, radix, 0))
  }

  /** ECMAScript parseInt without a radix; None stands for NaN. */
  function ParseInt(text: string): Option<int> {
    var s := TrimStart(text);
    if s != "" && (s[0] == '-' || s[0] == '+') then
      match ReadUnsigned(s[1..])
      case None => None
      case Some(n) => Some(if s[0] == '-' then 0 - n else n)
    else
      match ReadUnsigned(s)
      case None => None
      case Some(n) => Some(n)
  }

  // ---- Parser and printer ----------------------------------------------------------------

  datatype Credentials = Credentials(user: Option<string>, password: Option<string>)

  function ParseCredentials(creds: string): Credentials {
    var ci := IndexOf(creds, ":");
    if ci != -1 then Credentials(Some(creds[..ci]), Some(creds[ci + 1..])) else Credentials(Some(creds), None)
  }

  /** What stands before the last '@', if there is one, and what stands after it. */
  function SplitCredentials(rest: string): (Credentials, string) {
    var at := LastIndexOf(rest, '@');
    if at == -1 then (Credentials(None, None), rest)
    else (ParseCredentials(rest[..at]), rest[at + 1..])
  }

  function DefaultPort(scheme: string): int { if "socks" <= scheme then 1080 else 8080 }

  /** NaN and zero both give way to the default. */
  function ReadPort(scheme: string, text: string): (port: int)
    ensures port != 0
  {
    var n := ParseInt(text);
    if n == None || n == Some(0) then DefaultPort(scheme) else n.value
  }

  function HostPort(scheme: string, rest: string, c: Credentials): Proxy {
    Proxy(scheme, HostOf(rest), ReadPort(scheme, rest[LastIndexOf(rest, ':') + 1..]), c.user, c.password)
  }

  /** Without a colon the slice up to position -1 drops the last character. */
  function HostOf(rest: string): string {
    var lc := LastIndexOf(rest, ':');
    if lc >= 0 then rest[..lc] else if rest == "" then "" else rest[..|rest| - 1]
  }

  function ParseUrl(s: string, i: nat): Proxy
    requires i + 3 <= |s|
  {
    var (c, rest) := SplitCredentials(s[i + 3..]);
    HostPort(Lower(s[..i]), rest, c)
  }

  function ParseColons(s: string): Proxy {
    var parts := Split(s, ':');
    if |parts| == 4 then
      HostPort("http", parts[0] + ":" + parts[1], Credentials(Some(parts[2]), Some(parts[3])))
    else if |parts| == 3 then
      HostPort("http", parts[0] + ":" + parts[1], Credentials(Some(parts[2]), None))
    else HostPort("http", s, Credentials(None, None))
  }

  function Parse(text: string): Option<Proxy> {
    var s := Trim(text);
    if s == "" || s[0] == '#' then None
    else
      var i := IndexOf(s, "://");
      if i != -1 then Some(ParseUrl(s, i)) else Some(ParseColons(s))
  }

  /** Null and the empty string print alike. */
  function Text(o: Option<string>): string { if o.Some? then o.value else "" }

  function PrintCredentials(p: Proxy): string {
    if Text(p.user) == "" then "" else Text(p.user) + ":" + Text(p.password) + "@"
  }

  function Print(p: Proxy): string {
    p.scheme + "://" + PrintCredentials(p) + p.host + ":" + Decimal(p.port)
  }

  // ---- When printing loses nothing -------------------------------------------------------

  /** Equal up to a null versus an empty password. */
  predicate Equivalent(p: Proxy, q: Proxy) {
    p.scheme == q.scheme && p.host == q.host && p.port == q.port && p.user == q.user
    && Text(p.password) == Text(q.password)
  }

  predicate PlainScheme(scheme: string) {
    && (scheme != "" ==> !IsSpace(scheme[0]) && scheme[0] != '#')
    && Lower(scheme) == scheme
    && IndexOf(scheme, "://") == -1
  }

  predicate PlainCredentials(p: Proxy) {
    match p.user
    case None => Text(p.password) == ""
    case Some(u) => u != "" && ':' !in u
  }

  predicate Printable(p: Proxy) {
    PlainScheme(p.scheme) && PlainCredentials(p) && '@' !in p.host && p.port != 0
  }

  // ---- Numbers survive -------------------------------------------------------------------

  lemma {:induction false} ReadDigitsMore(s: string, d: char, acc: nat)
    requires forall c <- s :: IsDigit(c)
    requires IsDigit(d)
    ensures ReadDigits(s + [d], 10, acc) == ReadDigits(s, 10, acc) * 10 + DigitValue(d)
    decreases |s|
  {
    if s == "" {
      assert s + [d] == [d] && [d][1..] == "";
    } else {
      assert (s + [d])[1..] == s[1..] + [d];
      assert s[0] in s;
      ReadDigitsMore(s[1..], d, acc * 10 + DigitValue(s[0]));
    }
  }

  lemma {:induction false} ReadsDecimal(n: nat)
    ensures ReadDigits(DecimalNat(n), 10, 0) == n
  {
    if n >= 10 {
      ReadsDecimal(n / 10);
      DecimalNatIsDigits(n / 10);
      ReadDigitsMore(DecimalNat(n / 10), Digit(n % 10), 0);
    } else {
      assert DecimalNat(n)[1..] == "";
    }
  }

  lemma ReadsUnsignedDecimal(n: nat)
    ensures ReadUnsigned(DecimalNat(n)) == Some(n)
  {
    DecimalNatIsDigits(n);
    ReadsDecimal(n);
    var s := DecimalNat(n);
    if |s| >= 2 { assert IsDigit(s[1]); }
  }

  lemma StartsWithDigit(n: nat)
    ensures IsDigit(DecimalNat(n)[0])
  {
    DecimalNatIsDigits(n);
    assert DecimalNat(n)[0] in DecimalNat(n);
  }

  lemma ParsesDecimal(n: int)
    ensures ParseInt(Decimal(n)) == Some(n)
  {
    var m: nat := if n < 0 then -n else n;
    StartsWithDigit(m);
    ReadsUnsignedDecimal(m);
    assert !IsSpace(Decimal(n)[0]);
    if n < 0 { assert Decimal(n)[1..] == DecimalNat(m); }
  }

  // ---- What reads as a number ------------------------------------------------------------

  const DIGITS := "0123456789abcdef"
  const CAPITALS := "0123456789ABCDEF"

  /** The sixteen digits, in either case, and nothing else. */
  lemma DigitsRead(k: nat, c: char)
    ensures k < 16 ==> DigitValue(DIGITS[k]) == k && DigitValue(CAPITALS[k]) == k
    ensures DigitValue(c) < 16 ==> c == DIGITS[DigitValue(c)] || c == CAPITALS[DigitValue(c)]
    ensures DigitValue(c) < 10 <==> IsDigit(c)
  {}

  /** The letters of the alphabet lose their capital form, and nothing else changes. */
  lemma LettersLower(c: char)
    ensures 65 <= c as int < 65 + 26 ==> LowerChar(c) as int == c as int - 65 + 97
    ensures c as int < 65 || 65 + 26 <= c as int ==> LowerChar(c) == c
  {}

  lemma {:induction false} StopsAtNonDigit(s: string, rest: string, acc: nat)
    requires (forall c <- s :: IsDigit(c)) && (rest != "" ==> !IsDigit(rest[0]))
    ensures ReadDigits(s + rest, 10, acc) == ReadDigits(s, 10, acc)
    decreases |s|
  {
    if s == "" {
      assert s + rest == rest;
      if rest != "" { DigitsRead(0, rest[0]); }
    } else {
      assert s[0] in s && (s + rest)[1..] == s[1..] + rest;
      StopsAtNonDigit(s[1..], rest, acc * 10 + DigitValue(s[0]));
    }
  }

  lemma UnsignedReads(n: nat, rest: string)
    requires rest != "" ==> !IsDigit(rest[0]) && rest[0] != 'x' && rest[0] != 'X'
    ensures var t := DecimalNat(n) + rest; IsDigit(t[0]) && ReadUnsigned(t) == Some(n)
  {
    var d, t := DecimalNat(n), DecimalNat(n) + rest;
    DecimalNatIsDigits(n);
    StartsWithDigit(n);
    StopsAtNonDigit(d, rest, 0);
    ReadsDecimal(n);
    DigitsRead(0, t[0]);
    if |d| >= 2 { assert d[1] in d; }
  }

  lemma SignReads(t: string, n: nat, sign: char)
    requires t != "" && IsDigit(t[0]) && ReadUnsigned(t) == Some(n)
    ensures ParseInt(t) == Some(n)
    ensures sign == '-' ==> ParseInt([sign] + t) == Some(0 - n as int)
    ensures sign == '+' ==> ParseInt([sign] + t) == Some(n)
  {
    assert ([sign] + t)[1..] == t;
  }

  /** A number reads up to the first character that is no digit, with or without a sign, unless the text goes on
      as a hexadecimal one. */
  lemma NumberReads(n: nat, rest: string, sign: char)
    requires rest != "" ==> !IsDigit(rest[0]) && rest[0] != 'x' && rest[0] != 'X'
    ensures ParseInt(DecimalNat(n) + rest) == Some(n)
    ensures sign == '-' ==> ParseInt([sign] + (DecimalNat(n) + rest)) == Some(0 - n as int)
    ensures sign == '+' ==> ParseInt([sign] + (DecimalNat(n) + rest)) == Some(n)
  {
    UnsignedReads(n, rest);
    SignReads(DecimalNat(n) + rest, n, sign);
  }

  /** What begins with neither white space, a sign nor a digit is no number. */
  lemma NoNumber(text: string)
    requires text == "" || !(IsSpace(text[0]) || text[0] == '-' || text[0] == '+' || IsDigit(text[0]))
    ensures ParseInt(text) == None
  {
    if text != "" { DigitsRead(0, text[0]); }
  }

  /** Hexadecimal numbers read in base sixteen. */
  lemma HexReads(a: nat, b: nat)
    requires a < 16 && b < 16
    ensures ParseInt("0x" + [DIGITS[a], CAPITALS[b]]) == ParseInt("0X" + [CAPITALS[a], DIGITS[b]]) == Some(16 * a + b)
  {
    DigitsRead(a, 'a');
    DigitsRead(b, 'a');
    HexDigitsRead([DIGITS[a], CAPITALS[b]], a, b);
    HexDigitsRead([CAPITALS[a], DIGITS[b]], a, b);
    assert ("0x" + [DIGITS[a], CAPITALS[b]])[2..] == [DIGITS[a], CAPITALS[b]];
    assert ("0X" + [CAPITALS[a], DIGITS[b]])[2..] == [CAPITALS[a], DIGITS[b]];
  }

  lemma BareHexIsNoNumber(text: string)
    requires text == "0x" || text == "0X"
    ensures ParseInt(text) == None
  {
    assert text[0] == '0' && TrimStart(text) == text;
    assert text[..2] == text && text[2..] == "";
  }

  lemma HexDigitsRead(s: string, a: nat, b: nat)
    requires |s| == 2 && a < 16 && b < 16 && DigitValue(s[0]) == a && DigitValue(s[1]) == b
    ensures ReadDigits(s, 16, 0) == 16 * a + b
  {
    var t := s[1..];
    assert t[0] == s[1] && t[1..] == "";
    assert ReadDigits(s, 16, 0) == ReadDigits(t, 16, a);
    assert ReadDigits(t, 16, a) == ReadDigits("", 16, a * 16 + b);
  }

  lemma DecimalMarks(n: int)
    ensures ':' !in Decimal(n) && '@' !in Decimal(n)
    ensures Decimal(n) != "" && !IsSpace(Decimal(n)[|Decimal(n)| - 1])
  {
    var m: nat := if n < 0 then -n else n;
    DecimalNatIsDigits(m);
    assert Decimal(n)[|Decimal(n)| - 1] == DecimalNat(m)[|DecimalNat(m)| - 1];
    assert Decimal(n)[|Decimal(n)| - 1] in DecimalNat(m);
  }

  // ---- What every parsed proxy looks like ------------------------------------------------

  lemma {:induction false} LowerTwice(s: string)
    ensures Lower(Lower(s)) == Lower(s)
  {
    assert forall i :: 0 <= i < |s| ==> Lower(Lower(s))[i] == Lower(s)[i];
  }

  predicate MarkAt(s: string, i: int) {
    0 <= i <= |s| - 3 && s[i] == ':' && s[i + 1] == '/' && s[i + 2] == '/'
  }

  lemma MarkIs(s: string, i: int)
    ensures OccursAt(s, "://", i) <==> MarkAt(s, i)
  {
    if 0 <= i <= |s| - 3 { assert s[i..i + 3] == [s[i], s[i + 1], s[i + 2]]; }
  }

  lemma NoMarkIn(s: string)
    ensures IndexOf(s, "://") == -1 <==> forall i :: !MarkAt(s, i)
  {
    IndexOfFinds(s, "://");
    forall i: int { MarkIs(s, i); }
  }

  lemma LowerKeepsMark(s: string, i: int)
    ensures MarkAt(Lower(s), i) ==> MarkAt(s, i)
  {}

  lemma LowerKeepsMarks(s: string)
    ensures IndexOf(s, "://") == -1 ==> IndexOf(Lower(s), "://") == -1
  {
    NoMarkIn(s);
    NoMarkIn(Lower(s));
    forall i: int { LowerKeepsMark(s, i); }
  }

  lemma HeadBeforeMark(s: string, i: nat)
    requires i == IndexOf(s, "://")
    ensures IndexOf(s[..i], "://") == -1
  {
    IndexOfFinds(s, "://");
    NoMarkIn(s[..i]);
    forall j: int ensures !MarkAt(s[..i], j) {
      MarkIs(s, j);
      assert MarkAt(s[..i], j) ==> MarkAt(s, j);
    }
  }

  lemma TrimmedHead(text: string)
    ensures Trim(text) != "" ==> !IsSpace(Trim(text)[0])
  {
    TrimStartShape(text);
    TrimEndPrefix(TrimStart(text));
  }

  lemma {:induction false} TrimEndPrefix(s: string)
    ensures TrimEnd(s) <= s
    ensures s != "" && !IsSpace(s[|s| - 1]) ==> TrimEnd(s) == s
  {
    if s != "" && IsSpace(s[|s| - 1]) { TrimEndPrefix(s[..|s| - 1]); }
  }

  lemma UserShape(creds: string)
    ensures ParseCredentials(creds).user.Some? && ':' !in ParseCredentials(creds).user.value
  {
    IndexOfFinds(creds, ":");
    var ci := IndexOf(creds, ":");
    var user := ParseCredentials(creds).user.value;
    forall k | 0 <= k < |user| ensures user[k] != ':' {
      assert creds[k..k + 1] == [creds[k]];
      assert !OccursAt(creds, ":", k);
    }
  }

  lemma CredentialsShape(rest: string)
    ensures var r := SplitCredentials(rest);
      && '@' !in r.1
      && (r.0.user.Some? ==> ':' !in r.0.user.value)
      && (r.0.user == None ==> r.0.password == None && r.1 == rest)
  {
    NoneAfterLast(rest, '@');
    var at := LastIndexOf(rest, '@');
    if at == -1 {
      assert rest[0..] == rest;
    } else {
      UserShape(rest[..at]);
    }
  }

  lemma NoCredentials(rest: string)
    requires '@' !in rest
    ensures SplitCredentials(rest) == (Credentials(None, None), rest)
  {
    AbsentHasNoLast(rest, '@');
  }

  lemma SchemeShape(s: string, i: nat)
    requires i == IndexOf(s, "://") && !IsSpace(s[0]) && s[0] != '#'
    ensures PlainScheme(Lower(s[..i]))
  {
    HeadBeforeMark(s, i);
    LowerTwice(s[..i]);
    LowerKeepsMarks(s[..i]);
    LowerCharHarmless(s[0]);
  }

  lemma LowerCharHarmless(c: char)
    ensures IsSpace(LowerChar(c)) == IsSpace(c) && (LowerChar(c) == '#' <==> c == '#')
  {}

  lemma HostPortShape(scheme: string, rest: string, c: Credentials)
    requires '@' !in rest
    ensures var q := HostPort(scheme, rest, c);
            q.scheme == scheme && '@' !in q.host && q.port != 0 && q.user == c.user && q.password == c.password
  {}

  lemma UrlShape(s: string, i: nat)
    requires i == IndexOf(s, "://") && !IsSpace(s[0]) && s[0] != '#'
    ensures var q := ParseUrl(s, i);
      && PlainScheme(q.scheme) && '@' !in q.host && q.port != 0
      && (q.user.Some? ==> ':' !in q.user.value) && (q.user == None ==> q.password == None)
  {
    SchemeShape(s, i);
    CredentialsShape(s[i + 3..]);
    var (c, rest) := SplitCredentials(s[i + 3..]);
    HostPortShape(Lower(s[..i]), rest, c);
  }

  /** With a scheme, parsing only yields plain schemes, '@'-free hosts, non-zero ports and users without
      a colon; only an empty user keeps the result from being printable. */
  lemma ParsedUrlShape(text: string)
    requires IndexOf(Trim(text), "://") != -1 && Parse(text).Some?
    ensures var q := Parse(text).value;
      && PlainScheme(q.scheme) && '@' !in q.host && q.port != 0
      && (Printable(q) <==> q.user != Some(""))
  {
    TrimmedHead(text);
    UrlShape(Trim(text), IndexOf(Trim(text), "://"));
  }

  lemma HttpIsPlain()
    ensures PlainScheme("http")
  {
    NoMarkIn("http");
    assert Lower("http") == "http";
  }

  lemma ParsedColonsShape(s: string)
    ensures var q := ParseColons(s);
      && q.scheme == "http" && q.port != 0
      && (q.user.Some? ==> ':' !in q.user.value) && (q.user == None ==> q.password == None)
  {
    PartsAreClean(s, ':');
    var parts := Split(s, ':');
    if |parts| == 4 || |parts| == 3 { assert parts[2] in parts; }
  }

  /** Only an empty user or an '@' in the host keep a parsed proxy from being printable. */
  lemma ParsedShape(text: string)
    requires Parse(text).Some?
    ensures var q := Parse(text).value;
            PlainScheme(q.scheme) && (Printable(q) <==> q.user != Some("") && '@' !in q.host)
  {
    if IndexOf(Trim(text), "://") != -1 {
      ParsedUrlShape(text);
    } else {
      HttpIsPlain();
      ParsedColonsShape(Trim(text));
    }
  }

  // ---- Host and port of any text ---------------------------------------------------------

  /** What is left for host and port once scheme and credentials are taken off. */
  function RestOf(text: string): string {
    var s := Trim(text);
    var i := IndexOf(s, "://");
    if i != -1 then SplitCredentials(s[i + 3..]).1
    else
      var parts := Split(s, ':');
      if |parts| == 4 || |parts| == 3 then parts[0] + ":" + parts[1] else s
  }

  lemma ParsedFromRest(text: string) returns (scheme: string, c: Credentials)
    requires Parse(text).Some?
    ensures Parse(text) == Some(HostPort(scheme, RestOf(text), c))
  {
    var s := Trim(text);
    var i := IndexOf(s, "://");
    if i != -1 {
      scheme, c := Lower(s[..i]), SplitCredentials(s[i + 3..]).0;
    } else {
      var parts := Split(s, ':');
      scheme := "http";
      c := if |parts| == 4 then Credentials(Some(parts[2]), Some(parts[3]))
           else if |parts| == 3 then Credentials(Some(parts[2]), None) else Credentials(None, None);
    }
  }

  lemma PortDefaults(scheme: string, text: string)
    ensures ParseInt(text) == None || ParseInt(text) == Some(0) ==>
              ReadPort(scheme, text) == if "socks" <= scheme then 1080 else 8080
    ensures ParseInt(text).Some? && ParseInt(text).value != 0 ==> ReadPort(scheme, text) == ParseInt(text).value
  {}

  lemma WithoutColon(rest: string)
    requires ':' !in rest && rest != ""
    ensures HostOf(rest) == rest[..|rest| - 1] && LastIndexOf(rest, ':') == -1 && rest[|rest| - 1] != ':'
  {
    AbsentHasNoLast(rest, ':');
    assert rest[|rest| - 1] in rest;
  }

  lemma WithColon(rest: string)
    requires ':' in rest
    ensures var lc := LastIndexOf(rest, ':');
      && 0 <= lc && HostOf(rest) == rest[..lc] && rest[lc] == ':' && ':' !in rest[lc + 1..]
  {
    NoneAfterLast(rest, ':');
    LastIndexOfFinds(rest, ':');
  }

  /** What the parser makes of host and port, however the text began. */
  lemma CutExactly(scheme: string, rest: string, c: Credentials)
    requires rest != ""
    ensures var q := HostPort(scheme, rest, c);
      && (rest[|rest| - 1] != ':' && q.host == rest[..|rest| - 1] <==> ':' !in rest)
      && (':' !in rest ==> q.port == ReadPort(scheme, rest))
      && (':' in rest ==> var lc := LastIndexOf(rest, ':');
                          0 <= lc && q.host == rest[..lc] && rest[lc] == ':' && ':' !in rest[lc + 1..]
                          && q.port == ReadPort(scheme, rest[lc + 1..]))
  {
    if ':' in rest {
      WithColon(rest);
    } else {
      WithoutColon(rest);
      assert rest[0..] == rest;
    }
  }

  /** A parsed host loses a last character that is no colon exactly if no colon is left for a port, and then
      the would-be host is read as the port (see PortDefaults); otherwise host and port are the two sides of
      the last colon. */
  lemma PortlessHostIsCutExactly(text: string)
    requires Parse(text).Some? && RestOf(text) != ""
    ensures var q, rest := Parse(text).value, RestOf(text);
      && (rest[|rest| - 1] != ':' && q.host == rest[..|rest| - 1] <==> ':' !in rest)
      && (':' !in rest ==> q.port == ReadPort(q.scheme, rest))
      && (':' in rest ==>
            exists lc ::
              && 0 <= lc < |rest|
              && q.host == rest[..lc] && rest[lc] == ':' && ':' !in rest[lc + 1..]
              && q.port == ReadPort(q.scheme, rest[lc + 1..]))
  {
    var scheme, c := ParsedFromRest(text);
    CutExactly(scheme, RestOf(text), c);
  }

  // ---- The form without a scheme ---------------------------------------------------------

  lemma Joined(a: string, b: string, c: string)
    ensures a + ":" + b + ":" + c == a + [':'] + (b + [':'] + c)
  {
    Associative(a + ":", b + ":", c);
    Associative(a + ":", b, ":");
  }

  lemma ThreeParts(a: string, b: string, c: string)
    requires ':' !in a && ':' !in b && ':' !in c
    ensures Split(a + ":" + b + ":" + c, ':') == [a, b, c]
  {
    Joined(a, b, c);
    SplitWhole(c, ':');
    SplitFirst(b, c, ':');
    SplitFirst(a, b + [':'] + c, ':');
    assert [a] + ([b] + [c]) == [a, b, c];
  }

  lemma FourParts(a: string, b: string, c: string, d: string)
    requires ':' !in a && ':' !in b && ':' !in c && ':' !in d
    ensures Split(a + ":" + b + ":" + c + ":" + d, ':') == [a, b, c, d]
  {
    ThreeParts(b, c, d);
    SplitFirst(a, b + ":" + c + ":" + d, ':');
    Joined(b, c, d);
    FourJoined(a, b, c, d);
    assert [a] + [b, c, d] == [a, b, c, d];
  }

  lemma FourJoined(a: string, b: string, c: string, d: string)
    ensures a + ":" + b + ":" + c + ":" + d == a + [':'] + (b + ":" + c + ":" + d)
  {
    Associative(a + ":", b + ":" + c + ":", d);
    Associative(a + ":", b + ":" + c, ":");
    Associative(a + ":", b + ":", c);
    Associative(a + ":", b, ":");
  }

  /** A text without a scheme mark and without white space around it. */
  predicate Bare(text: string) {
    text != "" && text[0] != '#' && Trim(text) == text && IndexOf(text, "://") == -1
  }

  /** host:port:user:password reads as exactly that, for HTTP; the password may be missing. */
  lemma ColonFormReads(host: string, port: int, user: string, password: string)
    requires ':' !in host && ':' !in user && ':' !in password && port != 0
    ensures var text := host + ":" + Decimal(port) + ":" + user + ":" + password;
            Bare(text) ==> Parse(text) == Some(Proxy("http", host, port, Some(user), Some(password)))
    ensures var text := host + ":" + Decimal(port) + ":" + user;
            Bare(text) ==> Parse(text) == Some(Proxy("http", host, port, Some(user), None))
  {
    DecimalMarks(port);
    FourParts(host, Decimal(port), user, password);
    ThreeParts(host, Decimal(port), user);
    var p := Proxy("http", host, port, None, None);
    HostPortComesBack(p, Credentials(Some(user), Some(password)));
    HostPortComesBack(p, Credentials(Some(user), None));
  }

  // ---- The round trip --------------------------------------------------------------------

  /** The part of the printed string after the scheme mark. */
  function PrintedRest(p: Proxy): string { PrintCredentials(p) + (p.host + ":" + Decimal(p.port)) }

  /** Trimming can only bite into the scheme. */
  lemma PrintedTrimmed(p: Proxy)
    ensures Print(p) == p.scheme + ("://" + PrintedRest(p))
    ensures Trim(Print(p)) == TrimStart(p.scheme) + ("://" + PrintedRest(p))
  {
    DecimalMarks(p.port);
    var tail := "://" + PrintedRest(p);
    assert Print(p) == p.scheme + tail;
    TrimStartKeepsTail(p.scheme, tail);
    var t := TrimStart(p.scheme) + tail;
    assert t[|t| - 1] == Decimal(p.port)[|Decimal(p.port)| - 1];
    TrimEndPrefix(t);
  }

  lemma PrintedMark(p: Proxy)
    ensures IndexOf(Trim(Print(p)), "://") != -1
  {
    PrintedTrimmed(p);
    var a := TrimStart(p.scheme);
    var t := Trim(Print(p));
    assert t[|a|..|a| + 3] == "://";
    IndexOfFinds(t, "://");
    assert OccursAt(t, "://", |a|);
  }

  /** The first mark is the printed one, if the scheme holds none. */
  lemma MarkAfterScheme(scheme: string, rest: string)
    requires IndexOf(scheme, "://") == -1
    ensures IndexOf(scheme + ("://" + rest), "://") == |scheme|
  {
    var t := scheme + ("://" + rest);
    NoMarkIn(scheme);
    IndexOfFinds(t, "://");
    MarkIs(t, |scheme|);
    forall i | 0 <= i < |scheme| ensures !OccursAt(t, "://", i) {
      MarkIs(t, i);
      // A mark that straddles the end of the scheme would need its colon twice.
      assert t[|scheme|] == ':';
      assert !MarkAt(scheme, i);
    }
  }

  lemma RestComesBack(p: Proxy)
    requires PlainCredentials(p) && '@' !in p.host
    ensures var r := SplitCredentials(PrintedRest(p));
      && r.1 == p.host + ":" + Decimal(p.port)
      && r.0.user == p.user && Text(r.0.password) == Text(p.password)
  {
    DecimalMarks(p.port);
    var hp := p.host + ":" + Decimal(p.port);
    assert '@' !in hp;
    if p.user == None {
      assert PrintedRest(p) == hp;
      NoCredentials(hp);
    } else {
      CredentialsComeBack(p.user.value, Text(p.password), hp);
      assert PrintedRest(p) == p.user.value + [':'] + Text(p.password) + ['@'] + hp;
    }
  }

  lemma CredentialsComeBack(user: string, password: string, hp: string)
    requires ':' !in user && '@' !in hp
    ensures SplitCredentials(user + [':'] + password + ['@'] + hp)
            == (Credentials(Some(user), Some(password)), hp)
  {
    var creds := user + [':'] + password;
    var rest := creds + ['@'] + hp;
    LastIndexAt(creds, '@', hp);
    assert rest[..|creds|] == creds && rest[|creds| + 1..] == hp;
    IndexAt(user, ':', password);
    assert creds[..|user|] == user && creds[|user| + 1..] == password;
  }

  lemma HostPortComesBack(p: Proxy, c: Credentials)
    requires p.port != 0
    ensures HostPort(p.scheme, p.host + ":" + Decimal(p.port), c) == Proxy(p.scheme, p.host, p.port, c.user, c.password)
  {
    ParsesDecimal(p.port);
    DecimalMarks(p.port);
    var rest := p.host + ":" + Decimal(p.port);
    assert rest == p.host + [':'] + Decimal(p.port);
    LastIndexAt(p.host, ':', Decimal(p.port));
    assert rest[..|p.host|] == p.host && rest[|p.host| + 1..] == Decimal(p.port);
  }

  lemma ParsesMarked(text: string, scheme: string, rest: string)
    requires Trim(text) == scheme + ("://" + rest)
    requires PlainScheme(scheme)
    ensures var r := SplitCredentials(rest);
            Parse(text) == Some(HostPort(scheme, r.1, r.0))
  {
    var t := Trim(text);
    MarkAfterScheme(scheme, rest);
    assert t[..|scheme|] == scheme && t[|scheme| + 3..] == rest;
    assert t[0] == if scheme == "" then ':' else scheme[0];
    assert Parse(text) == Some(ParseUrl(t, |scheme|));
  }

  /** What the parser sees of a printed proxy with a plain scheme. */
  lemma PrintedParses(p: Proxy)
    requires PlainScheme(p.scheme)
    ensures var r := SplitCredentials(PrintedRest(p));
            Parse(Print(p)) == Some(HostPort(p.scheme, r.1, r.0))
  {
    PrintedTrimmed(p);
    TrimStartShape(p.scheme);
    ParsesMarked(Print(p), p.scheme, PrintedRest(p));
  }

  lemma PrintableComesBack(p: Proxy)
    requires Printable(p)
    ensures Parse(Print(p)).Some? && Equivalent(p, Parse(Print(p)).value)
  {
    PrintedParses(p);
    RestComesBack(p);
    HostPortComesBack(p, SplitCredentials(PrintedRest(p)).0);
  }

  /** A printed proxy parses back to itself, up to a null versus an empty password, exactly when it is
      printable. Ports may be negative, passwords may hold ':' and '@', hosts may hold ':'. */
  lemma RoundTripExactly(p: Proxy)
    ensures Parse(Print(p)).Some? && Equivalent(p, Parse(Print(p)).value) <==> Printable(p)
  {
    if Printable(p) {
      PrintableComesBack(p);
    } else if Parse(Print(p)).Some? && Equivalent(p, Parse(Print(p)).value) {
      PrintedMark(p);
      ParsedUrlShape(Print(p));
      EmptyUserIsLost(p);
    }
  }

  /** An empty user is printed as none, and only an '@' in the host could bring one back. */
  lemma EmptyUserIsLost(p: Proxy)
    requires p.user == Some("") && '@' !in p.host && PlainScheme(p.scheme)
    ensures Parse(Print(p)).Some? ==> Parse(Print(p)).value.user == None
  {
    var hp := p.host + ":" + Decimal(p.port);
    DecimalMarks(p.port);
    assert PrintedRest(p) == hp;
    NoCredentials(hp);
    PrintedParses(p);
    HostPortShape(p.scheme, hp, Credentials(None, None));
  }

  /** So a session that was stored for a parsed proxy finds the same proxy again, except when the
      parsed string had an empty user, or, without a scheme, an '@' in its host. */
  lemma ReprintedProxyIsStable(text: string)
    requires Parse(text).Some?
    ensures var p := Parse(text).value;
            Parse(Print(p)).Some? && Equivalent(p, Parse(Print(p)).value)
            <==> p.user != Some("") && '@' !in p.host
  {
    ParsedShape(text);
    RoundTripExactly(Parse(text).value);
  }
}
