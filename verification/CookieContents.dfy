/** What a cookie header is read as, in terms of its text. */
module CookieContents {
  import opened Results
  import opened Sequences
  import opened Text
  import opened Cookies
  import opened CookieLaws

  // ---- spaces and ends ----------------------------------------------------

  const SPACES := "\t\n\U{0B}\U{0C}\r\U{1C}\U{1D}\U{1E}\U{1F} \U{85}\U{A0}\U{1680}\U{2000}\U{2001}\U{2002}\U{2003}\U{2004}\U{2005}\U{2006}\U{2007}\U{2008}\U{2009}\U{200A}\U{2028}\U{2029}\U{202F}\U{205F}\U{3000}"

  const ENDS := ";\n\U{0B}\U{0C}\r\U{1C}\U{1D}\U{1E}\U{85}\U{2028}\U{2029}"

  /** Which characters are space, and which end a part. */
  lemma {:induction false} SpacesExactly(c: char)
    ensures IsSpace(c) <==> c in SPACES
    ensures IsEnd(c) <==> c in ENDS
  {
  }

  predicate Blank(s: string) { forall c <- s :: IsSpace(c) }

  lemma {:induction false} TrimLeftBlank(a: string, s: string)
    requires Blank(a) && (s == "" || !IsSpace(s[0]))
    ensures TrimLeft(a + s) == s
  {
    if a == "" {
      assert a + s == s;
    } else {
      assert (a + s)[1..] == a[1..] + s;
      TrimLeftBlank(a[1..], s);
    }
  }

  lemma {:induction false} TrimRightBlank(s: string, b: string)
    requires Blank(b) && (s == "" || !IsSpace(s[|s| - 1]))
    ensures TrimRight(s + b) == s
  {
    if b == "" {
      assert s + b == s;
    } else {
      assert (s + b)[..|s + b| - 1] == s + b[..|b| - 1];
      TrimRightBlank(s, b[..|b| - 1]);
    }
  }

  /** Trimming takes all the space around a text, and nothing else. */
  lemma {:induction false} TrimExactly(a: string, s: string, b: string)
    requires Blank(a) && Blank(b) && Trimmed(s)
    ensures Trim(a + s + b) == s
  {
    if s == "" {
      assert a + s + b == (a + b) + "";
      TrimLeftBlank(a + b, "");
    } else {
      assert a + s + b == a + (s + b);
      TrimLeftBlank(a, s + b);
      TrimRightBlank(s, b);
    }
  }

  lemma {:induction false} TrimRightDropsSpace(s: string, k: nat)
    requires |TrimRight(s)| <= k < |s|
    ensures IsSpace(s[k])
  {
    if k < |s| - 1 { TrimRightDropsSpace(s[..|s| - 1], k); }
  }

  lemma {:induction false} LeftBlank(s: string) returns (a: string)
    ensures Blank(a) && s == a + TrimLeft(s)
  {
    TrimLeftIs(s);
    a := s[..|s| - |TrimLeft(s)|];
    forall k | 0 <= k < |a| ensures IsSpace(a[k]) {
      TrimLeftDropsSpace(s, k);
    }
  }

  lemma {:induction false} RightBlank(s: string) returns (b: string)
    ensures Blank(b) && s == TrimRight(s) + b
  {
    TrimRightIs(s);
    b := s[|TrimRight(s)|..];
    forall k | 0 <= k < |b| ensures IsSpace(b[k]) {
      TrimRightDropsSpace(s, |TrimRight(s)| + k);
    }
  }

  /** Any text is space, what trimming leaves, and space. */
  lemma {:induction false} Around(s: string) returns (a: string, b: string)
    ensures s == a + Trim(s) + b && Blank(a) && Blank(b) && Trimmed(Trim(s))
  {
    TrimIs(s);
    a := LeftBlank(s);
    b := RightBlank(TrimLeft(s));
    Associates(a, Trim(s), b);
  }

  // ---- parts --------------------------------------------------------------

  lemma {:induction false} NoEquals(a: string)
    requires '=' !in a
    ensures CookieOf(a) == None
  {
    TrimIs(a);
    IndexOfIs(Trim(a), '=');
  }

  lemma {:induction false} TrimRightJoin(a: string, b: string)
    requires a != "" && !IsSpace(a[|a| - 1])
    ensures TrimRight(a + b) == a + TrimRight(b)
  {
    if b == "" {
      assert a + b == a;
    } else if IsSpace(b[|b| - 1]) {
      assert (a + b)[..|a + b| - 1] == a + b[..|b| - 1];
      TrimRightJoin(a, b[..|b| - 1]);
    }
  }

  lemma {:induction false} Inside(a: string, b: string)
    ensures Trim(a + "=" + b) == TrimLeft(a) + "=" + TrimRight(b)
  {
    assert a + "=" + b == a + ("=" + b);
    TrimLeftJoin(a, "=" + b);
    assert TrimLeft(a) + ("=" + b) == TrimLeft(a) + "=" + b;
    TrimRightJoin(TrimLeft(a) + "=", b);
  }

  lemma {:induction false} TrimAgain(s: string)
    ensures Trim(TrimLeft(s)) == Trim(s) && Trim(TrimRight(s)) == Trim(s)
  {
    var a, b := Around(s);
    TrimLeftIs(s);
    var t := TrimRight(s);
    TrimRightIs(s);
    if Trim(s) == "" {
      TrimExactly(a + b, "", "");
      assert forall c <- t :: c in s;
      assert t == t + "" + "";
      TrimExactly(t, "", "");
    } else {
      assert s == (a + Trim(s)) + b;
      TrimRightBlank(a + Trim(s), b);
      assert a + Trim(s) == a + Trim(s) + "";
      TrimExactly(a, Trim(s), "");
    }
  }

  /** A part is a cookie exactly when it has an equals sign, with a name before the first that is not empty and not that
      of an attribute. Space around the name and the value does not count. */
  lemma {:induction false} CookieExactly(a: string, b: string)
    requires '=' !in a
    ensures CookieOf(a) == None
    ensures CookieOf(a + "=" + b) ==
            if Trim(a) == "" || Lower(Trim(a)) in ["domain", "path", "expires", "max-age", "secure", "httponly", "samesite"] then None
            else Some(Cookie(Trim(a), Trim(b)))
  {
    NoEquals(a);
    Inside(a, b);
    var name, value := TrimLeft(a), TrimRight(b);
    TrimLeftIs(a);
    assert '=' !in name;
    IndexOfFirst(name, value);
    SplitPart(name, value);
    TrimAgain(a);
    TrimAgain(b);
  }

  lemma {:induction false} PartStays(a: string, e: char, b: string)
    requires IsEnd(e)
    ensures Part(a + [e] + b) == Part(a)
  {
    var s := a + [e] + b;
    if a == "" {
      assert s[0] == e;
    } else {
      assert s[0] == a[0] && s[1..] == a[1..] + [e] + b;
      PartStays(a[1..], e, b);
    }
  }

  lemma {:induction false} RestStays(a: string, e: char, b: string, n: nat)
    ensures n < |a| ==> (a + [e] + b)[n + 1..] == a[n + 1..] + [e] + b
    ensures (a + [e] + b)[|a| + 1..] == b
  {
  }

  /** Text is read part by part: any semicolon or line break splits it. */
  lemma {:induction false} SplitAnywhere(a: string, e: char, b: string)
    requires IsEnd(e)
    ensures Parts(a + [e] + b) == Parts(a) + Parts(b)
    decreases |a|
  {
    var p := Part(a);
    PartShort(a);
    PartStays(a, e, b);
    RestStays(a, e, b, |p|);
    if |p| < |a| {
      SplitAnywhere(a[|p| + 1..], e, b);
      Associates(Found(p), Parts(a[|p| + 1..]), Parts(b));
    } else {
      assert Found(p) + [] == Found(p);
    }
  }

  /** Text without an end is one part. */
  lemma {:induction false} OneCookie(s: string)
    requires OnePart(s)
    ensures Parts(s) == if CookieOf(s).Some? then [CookieOf(s).value] else []
  {
    assert s + "" == s;
    PartOf(s, "");
  }

  // ---- the prefix ---------------------------------------------------------

  lemma {:induction false} LetterFirst(word: string)
    requires Lower(word) == "cookie"
    ensures |word| == 6 && !IsSpace(word[0])
  {
    assert Lower(word)[0] == 'c';
  }

  /** What follows a prefix is what comes after the word, in any case, and a colon, with space before, between and
      after. */
  lemma {:induction false} PrefixTaken(a: string, word: string, b: string, c: string, rest: string)
    requires Blank(a) && Lower(word) == "cookie" && Blank(b) && Blank(c) && (rest == "" || !IsSpace(rest[0]))
    ensures AfterPrefix(a + word + b + ":" + c + rest) == Some(rest)
  {
    var s := a + word + b + ":" + c + rest;
    var after := ":" + c + rest;
    LetterFirst(word);
    assert s == a + (word + (b + after));
    TrimLeftBlank(a, word + (b + after));
    var t := word + (b + after);
    assert t[..6] == word && t[6..] == b + after;
    TrimLeftBlank(b, after);
    assert after[1..] == c + rest;
    TrimLeftBlank(c, rest);
  }

  lemma {:induction false} Flat(a: string, b: string, c: string, d: string, e: string, f: string)
    ensures a + (b + (c + (d + (e + f)))) == a + b + c + d + e + f
  {
    assert d + (e + f) == d + e + f;
    assert c + (d + e + f) == c + d + e + f;
    assert b + (c + d + e + f) == b + c + d + e + f;
  }

  /** Only such text has a prefix. */
  lemma {:induction false} PrefixFound(s: string) returns (a: string, word: string, b: string, c: string)
    requires AfterPrefix(s).Some?
    ensures s == a + word + b + ":" + c + AfterPrefix(s).value && Blank(a) && Lower(word) == "cookie" && Blank(b) && Blank(c)
    ensures AfterPrefix(s).value == "" || !IsSpace(AfterPrefix(s).value[0])
  {
    var t := TrimLeft(s);
    var u := TrimLeft(t[6..]);
    var rest := AfterPrefix(s).value;
    a := LeftBlank(s);
    word := t[..6];
    b := LeftBlank(t[6..]);
    c := LeftBlank(u[1..]);
    TrimLeftIs(u[1..]);
    assert u == ":" + u[1..] && t == word + t[6..];
    assert s == a + (word + (b + (":" + (c + rest))));
    Flat(a, word, b, ":", c, rest);
  }
}
