/** Cookie headers, printed and parsed. */
module Cookies {
  import opened Results
  import opened Text
  import opened Sequences

  datatype Cookie = Cookie(name: string, value: string)

  // ---- text ---------------------------------------------------------------

  /** Whitespace, as strip() and \s see it. */
  predicate IsSpace(c: char) {
    var n := c as int;
    || 9 <= n <= 13 || 28 <= n <= 32 || n == 0x85 || n == 0xA0 || n == 0x1680 || 0x2000 <= n <= 0x200A
    || n == 0x2028 || n == 0x2029 || n == 0x202F || n == 0x205F || n == 0x3000
  }

  /** Where splitlines() breaks a line. */
  predicate IsBreak(c: char) {
    var n := c as int;
    10 <= n <= 13 || 28 <= n <= 30 || n == 0x85 || n == 0x2028 || n == 0x2029
  }

  function TrimLeft(s: string): string { if s != "" && IsSpace(s[0]) then TrimLeft(s[1..]) else s }

  function TrimRight(s: string): string { if s != "" && IsSpace(s[|s| - 1]) then TrimRight(s[..|s| - 1]) else s }

  function Trim(s: string): string { TrimRight(TrimLeft(s)) }

  // ---- the header prefix --------------------------------------------------

  /** What follows a "Cookie:" prefix with its surrounding space, if s starts with one. */
  function AfterPrefix(s: string): Option<string> {
    var t := TrimLeft(s);
    if |t| < 6 || Lower(t[..6]) != "cookie" then None
    else
      var u := TrimLeft(t[6..]);
      if u == "" || u[0] != ':' then None else Some(TrimLeft(u[1..]))
  }

  lemma {:induction false} TrimLeftShortens(s: string)
    ensures |TrimLeft(s)| <= |s|
  {
    if s != "" && IsSpace(s[0]) { TrimLeftShortens(s[1..]); }
  }

  lemma {:induction false} AfterPrefixShortens(s: string)
    ensures AfterPrefix(s).Some? ==> |AfterPrefix(s).value| < |s|
  {
    var t := TrimLeft(s);
    TrimLeftShortens(s);
    if AfterPrefix(s).Some? {
      TrimLeftShortens(t[6..]);
      TrimLeftShortens(TrimLeft(t[6..])[1..]);
    }
  }

  /** Whether the character before the rest of the text ends a line; only a newline does. */
  function StripPrefixes(s: string, atStart: bool): string
    decreases |s|, atStart
  {
    if s == "" then ""
    else if atStart && AfterPrefix(s).Some? then
      AfterPrefixShortens(s);
      var rest := AfterPrefix(s).value;
      StripPrefixes(rest, s[|s| - |rest| - 1] == '\n')
    else [s[0]] + StripPrefixes(s[1..], s[0] == '\n')
  }

  // ---- parsing ------------------------------------------------------------

  /** Where parts end: at a semicolon, and at a line break. A carriage return counts as one. */
  predicate IsEnd(c: char) { c == ';' || IsBreak(c) }

  /** The text up to the first end. */
  function Part(s: string): string { if s == "" || IsEnd(s[0]) then "" else [s[0]] + Part(s[1..]) }

  lemma {:induction false} PartShort(s: string)
    ensures |Part(s)| <= |s| && Part(s) == s[..|Part(s)|]
    ensures |Part(s)| < |s| ==> IsEnd(s[|Part(s)|])
    ensures forall c <- Part(s) :: !IsEnd(c)
  {
    if s != "" && !IsEnd(s[0]) { PartShort(s[1..]); }
  }

  function IndexOf(s: string, c: char): nat { if s == "" || s[0] == c then 0 else 1 + IndexOf(s[1..], c) }

  lemma {:induction false} IndexOfIs(s: string, c: char)
    ensures IndexOf(s, c) <= |s| && (forall k :: 0 <= k < IndexOf(s, c) ==> s[k] != c)
    ensures IndexOf(s, c) < |s| ==> s[IndexOf(s, c)] == c
    ensures IndexOf(s, c) < |s| <==> c in s
  {
    if s != "" && s[0] != c { IndexOfIs(s[1..], c); }
  }

  predicate IsAttribute(name: string) {
    Lower(name) in {"domain", "path", "expires", "max-age", "secure", "httponly", "samesite"}
  }

  /** The cookie of one part, if it is one. */
  function CookieOf(raw: string): Option<Cookie> {
    var part := Trim(raw);
    IndexOfIs(part, '=');
    var i := IndexOf(part, '=');
    if i == |part| then None
    else
      var name := Trim(part[..i]);
      if name == "" || IsAttribute(name) then None else Some(Cookie(name, Trim(part[i + 1..])))
  }

  function Found(raw: string): seq<Cookie> {
    var c := CookieOf(raw);
    if c.Some? then [c.value] else []
  }

  function Parts(s: string): seq<Cookie>
    decreases |s|
  {
    PartShort(s);
    var p := Part(s);
    Found(p) + if |p| < |s| then Parts(s[|p| + 1..]) else []
  }

  function ParseHeader(text: string): seq<Cookie> { Parts(StripPrefixes(Trim(text), true)) }

  lemma {:induction false} PartsStep(done: seq<Cookie>, s: string)
    ensures |Part(s)| <= |s|
    ensures done + Parts(s) == done + Found(Part(s)) + if |Part(s)| < |s| then Parts(s[|Part(s)| + 1..]) else []
  {
    PartShort(s);
    Associates(done, Found(Part(s)), if |Part(s)| < |s| then Parts(s[|Part(s)| + 1..]) else []);
  }

  method ParseHeaderCookies(text: string) returns (cookies: seq<Cookie>)
    ensures cookies == ParseHeader(text)
  {
    cookies := [];
    var rest := StripPrefixes(Trim(text), true);
    var more := true;
    while more
      invariant ParseHeader(text) == cookies + if more then Parts(rest) else []
      decreases more, |rest|
    {
      PartsStep(cookies, rest);
      var raw := Part(rest);
      cookies := cookies + Found(raw);
      if |raw| < |rest| { rest := rest[|raw| + 1..]; } else { more := false; }
    }
  }

  // ---- printing -----------------------------------------------------------

  function PrintOne(c: Cookie): string { c.name + "=" + c.value }

  function Print(cs: seq<Cookie>): string {
    if cs == [] then "" else if |cs| == 1 then PrintOne(cs[0]) else PrintOne(cs[0]) + "; " + Print(cs[1..])
  }

  // ---- deduplication ------------------------------------------------------

  /** Setting a dictionary entry: the value is replaced in place, a new name goes to the end. */
  function Put(cs: seq<Cookie>, c: Cookie): seq<Cookie> {
    if cs == [] then [c] else if cs[0].name == c.name then [c] + cs[1..] else [cs[0]] + Put(cs[1..], c)
  }

  function Dedupe(cs: seq<Cookie>): seq<Cookie> {
    if cs == [] then [] else Put(Dedupe(cs[..|cs| - 1]), cs[|cs| - 1])
  }

  method DedupeCookies(cs: seq<Cookie>) returns (out: seq<Cookie>)
    ensures out == Dedupe(cs)
  {
    out := [];
    for n := 0 to |cs|
      invariant out == Dedupe(cs[..n])
    {
      assert cs[..n + 1][..n] == cs[..n];
      out := Put(out, cs[n]);
    }
    assert cs[..|cs|] == cs;
  }

  // ---- importing a header -------------------------------------------------

  /** parse_cookies in the header format; None for the error it raises. */
  function Import(text: string): Option<seq<Cookie>> {
    if Trim(text) == "" then None
    else
      var cs := Dedupe(ParseHeader(Trim(text)));
      if cs == [] then None else Some(cs)
  }

  method ImportHeader(text: string) returns (cookies: Option<seq<Cookie>>)
    ensures cookies == Import(text)
  {
    if Trim(text) == "" { return None; }
    var parsed := ParseHeaderCookies(Trim(text));
    var kept := DedupeCookies(parsed);
    cookies := if kept == [] then None else Some(kept);
  }
}
