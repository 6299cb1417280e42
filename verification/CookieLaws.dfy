/** Printing and parsing cookie headers undo each other. */
module CookieLaws {
  import opened Results
  import opened Sequences
  import opened Text
  import opened Cookies

  predicate Trimmed(s: string) { s != "" ==> !IsSpace(s[0]) && !IsSpace(s[|s| - 1]) }

  predicate OnePart(s: string) { forall c <- s :: !IsEnd(c) }

  /** A cookie a header can carry. */
  predicate Clean(c: Cookie) {
    && c.name != "" && Trimmed(c.name) && OnePart(c.name) && '=' !in c.name && !IsAttribute(c.name)
    && Trimmed(c.value) && OnePart(c.value)
  }

  predicate AllClean(cs: seq<Cookie>) { forall c <- cs :: Clean(c) }

  // ---- trimming -----------------------------------------------------------

  lemma {:induction false} TrimLeftIs(s: string)
    ensures |TrimLeft(s)| <= |s| && TrimLeft(s) == s[|s| - |TrimLeft(s)|..]
    ensures TrimLeft(s) != "" ==> !IsSpace(TrimLeft(s)[0])
  {
    if s != "" && IsSpace(s[0]) {
      TrimLeftIs(s[1..]);
      assert s[1..][|s| - 1 - |TrimLeft(s)|..] == s[|s| - |TrimLeft(s)|..];
    }
  }

  lemma {:induction false} TrimLeftDropsSpace(s: string, k: nat)
    requires k < |s| - |TrimLeft(s)|
    ensures IsSpace(s[k])
  {
    if IsSpace(s[0]) && k > 0 { TrimLeftDropsSpace(s[1..], k - 1); }
  }

  lemma {:induction false} TrimRightIs(s: string)
    ensures |TrimRight(s)| <= |s| && TrimRight(s) == s[..|TrimRight(s)|]
    ensures TrimRight(s) != "" ==> !IsSpace(TrimRight(s)[|TrimRight(s)| - 1])
  {
    if s != "" && IsSpace(s[|s| - 1]) { TrimRightIs(s[..|s| - 1]); }
  }

  lemma {:induction false} TrimIs(s: string)
    ensures Trimmed(Trim(s)) && forall c <- Trim(s) :: c in s
  {
    TrimLeftIs(s);
    TrimRightIs(TrimLeft(s));
  }

  lemma {:induction false} TrimSame(s: string)
    requires Trimmed(s)
    ensures Trim(s) == s
  {
  }

  lemma {:induction false} TrimSpaced(s: string)
    requires Trimmed(s)
    ensures Trim(" " + s) == s
  {
    assert (" " + s)[1..] == s;
    assert TrimLeft(" " + s) == TrimLeft(s);
  }

  /** Only the front part can lose characters to trimming on the left. */
  lemma {:induction false} TrimLeftJoin(a: string, b: string)
    requires b != "" && !IsSpace(b[0])
    ensures TrimLeft(a + b) == TrimLeft(a) + b
  {
    if a == "" {
      assert a + b == b;
    } else if IsSpace(a[0]) {
      assert (a + b)[1..] == a[1..] + b;
      TrimLeftJoin(a[1..], b);
    }
  }

  // ---- parts --------------------------------------------------------------

  lemma {:induction false} PartOf(s: string, t: string)
    requires OnePart(s) && (t == "" || IsEnd(t[0]))
    ensures Part(s + t) == s
  {
    if s == "" {
      assert s + t == t;
    } else {
      assert (s + t)[1..] == s[1..] + t;
      PartOf(s[1..], t);
    }
  }

  lemma {:induction false} IndexOfFirst(a: string, b: string)
    requires '=' !in a
    ensures IndexOf(a + "=" + b, '=') == |a|
  {
    var s := a + "=" + b;
    if a != "" {
      assert s[1..] == a[1..] + "=" + b;
      IndexOfFirst(a[1..], b);
    }
  }

  lemma {:induction false} PrintedPart(c: Cookie)
    requires Clean(c)
    ensures Trimmed(PrintOne(c)) && OnePart(PrintOne(c)) && OnePart(" " + PrintOne(c))
  {
    var s := PrintOne(c);
    assert s[0] == c.name[0];
    assert s[|s| - 1] == if c.value == "" then '=' else c.value[|c.value| - 1];
  }

  lemma {:induction false} SplitPart(name: string, value: string)
    requires '=' !in name
    ensures var s := name + "=" + value; s[..|name|] == name && s[|name| + 1..] == value
  {
  }

  lemma {:induction false} PrintedIsFound(c: Cookie)
    requires Clean(c)
    ensures Found(PrintOne(c)) == [c] && Found(" " + PrintOne(c)) == [c]
  {
    PrintedPart(c);
    TrimSame(PrintOne(c));
    TrimSpaced(PrintOne(c));
    IndexOfFirst(c.name, c.value);
    SplitPart(c.name, c.value);
    TrimSame(c.name);
    TrimSame(c.value);
  }

  function Tail(cs: seq<Cookie>): string { if cs == [] then "" else "; " + Print(cs) }

  lemma {:induction false} PrintHeadTail(cs: seq<Cookie>)
    requires cs != []
    ensures Print(cs) == PrintOne(cs[0]) + Tail(cs[1..])
  {
    if |cs| == 1 { assert PrintOne(cs[0]) + "" == PrintOne(cs[0]); }
    else { assert PrintOne(cs[0]) + "; " + Print(cs[1..]) == PrintOne(cs[0]) + ("; " + Print(cs[1..])); }
  }

  lemma {:induction false} PartsOfTwo(head: string, rest: string)
    requires OnePart(head)
    ensures Parts(head + "; " + rest) == Found(head) + Parts(" " + rest)
  {
    var s, t := head + "; " + rest, "; " + rest;
    assert s == head + t;
    PartOf(head, t);
    assert s[|head| + 1..] == " " + rest;
  }

  lemma {:induction false} PartsOfOne(head: string)
    requires OnePart(head)
    ensures Parts(head) == Found(head)
  {
    PartOf(head, "");
    assert head + "" == head;
    assert Found(head) + [] == Found(head);
  }

  /** Whatever stands first, the printed cookies behind it are read back. */
  lemma {:induction false} PartsOfTail(head: string, cs: seq<Cookie>)
    requires OnePart(head) && AllClean(cs)
    ensures Parts(head + Tail(cs)) == Found(head) + cs
    decreases |cs|
  {
    if cs == [] {
      assert head + Tail(cs) == head;
      PartsOfOne(head);
      assert Found(head) + cs == Found(head);
    } else {
      assert cs[0] in cs;
      PartsOfTwo(head, Print(cs));
      Associates(head, "; ", Print(cs));
      PrintedPart(cs[0]);
      PrintedIsFound(cs[0]);
      PrintHeadTail(cs);
      Associates(" ", PrintOne(cs[0]), Tail(cs[1..]));
      PartsOfTail(" " + PrintOne(cs[0]), cs[1..]);
      assert [cs[0]] + cs[1..] == cs;
    }
  }

  // ---- only clean cookies come out ----------------------------------------

  lemma {:induction false} OnePartOf(s: string, t: string)
    requires OnePart(t) && forall c <- s :: c in t
    ensures OnePart(s)
  {
  }

  lemma {:induction false} CookieIsClean(raw: string)
    requires OnePart(raw) && CookieOf(raw).Some?
    ensures Clean(CookieOf(raw).value)
  {
    var part := Trim(raw);
    TrimIs(raw);
    OnePartOf(part, raw);
    IndexOfIs(part, '=');
    var i := IndexOf(part, '=');
    TrimIs(part[..i]);
    TrimIs(part[i + 1..]);
    assert '=' !in part[..i];
    OnePartOf(Trim(part[..i]), part);
    OnePartOf(Trim(part[i + 1..]), part);
  }

  /** Every cookie a parse gives, of any text, is one a header can carry. */
  lemma {:induction false} PartsAreClean(s: string)
    ensures AllClean(Parts(s))
    decreases |s|
  {
    PartShort(s);
    var p := Part(s);
    if CookieOf(p).Some? { CookieIsClean(p); }
    if |p| < |s| { PartsAreClean(s[|p| + 1..]); }
  }

  // ---- the prefix ---------------------------------------------------------

  predicate NoBreaks(s: string) { forall k :: 0 <= k < |s| ==> s[k] != '\n' }

  lemma {:induction false} NothingStripped(s: string)
    requires NoBreaks(s)
    ensures StripPrefixes(s, false) == s
  {
    if s != "" {
      NothingStripped(s[1..]);
      assert s == [s[0]] + s[1..];
    }
  }

  lemma {:induction false} OnePartNoBreaks(s: string)
    requires OnePart(s)
    ensures NoBreaks(s)
  {
    forall k | 0 <= k < |s| ensures s[k] != '\n' {
      assert s[k] in s;
    }
  }

  lemma {:induction false} PrintNoBreaks(cs: seq<Cookie>)
    requires AllClean(cs)
    ensures NoBreaks(Print(cs)) && (cs != [] ==> Trimmed(Print(cs)) && Print(cs) != "")
  {
    if cs != [] {
      PrintHeadTail(cs);
      assert cs[0] in cs;
      PrintedPart(cs[0]);
      OnePartNoBreaks(PrintOne(cs[0]));
      if |cs| > 1 {
        PrintNoBreaks(cs[1..]);
      }
    }
  }

  lemma {:induction false} LowerAt(s: string, k: nat)
    requires k < |s| && s[k] == '='
    ensures Lower(s)[k] == '='
  {
  }

  /** A header starts with the prefix exactly when its first name does, and the name is what gets shortened. */
  lemma {:induction false} PrefixIsOfName(name: string, rest: string)
    requires name != "" && Trimmed(name) && rest != "" && rest[0] == '='
    ensures AfterPrefix(name + rest) == if AfterPrefix(name).Some? then Some(AfterPrefix(name).value + rest) else None
  {
    var s := name + rest;
    TrimSame(name);
    TrimLeftIs(name);
    TrimLeftJoin(name, rest);
    assert TrimLeft(name) == name;
    assert TrimLeft(s) == s;
    if |name| >= 6 {
      assert s[..6] == name[..6] && s[6..] == name[6..] + rest;
      TrimLeftJoin(name[6..], rest);
      var u := TrimLeft(name[6..]);
      if u != "" {
        assert (u + rest)[1..] == u[1..] + rest;
        TrimLeftJoin(u[1..], rest);
      }
    } else if |s| >= 6 {
      LowerAt(s[..6], |name|);
      assert Lower(s[..6]) != "cookie" by { assert "cookie"[|name|] != '='; }
    }
  }

  lemma {:induction false} SuffixOn(a: string, b: string, c: string)
    requires |a| <= |b| <= |c| && a == b[|b| - |a|..] && b == c[|c| - |b|..]
    ensures a == c[|c| - |a|..]
  {
  }

  lemma {:induction false} TrimLeftEnds(s: string, k: nat)
    requires k <= |s|
    ensures var r := TrimLeft(s[k..]); |r| <= |s| - k && r == s[|s| - |r|..]
  {
    TrimLeftIs(s[k..]);
    SuffixOn(TrimLeft(s[k..]), s[k..], s);
  }

  lemma {:induction false} TwoTrimsEnd(s: string)
    requires |TrimLeft(s)| >= 6 && TrimLeft(TrimLeft(s)[6..]) != ""
    ensures var r := TrimLeft(TrimLeft(TrimLeft(s)[6..])[1..]); |r| < |s| && r == s[|s| - |r|..]
  {
    var t := TrimLeft(s);
    var u := TrimLeft(t[6..]);
    TrimLeftIs(s);
    TrimLeftEnds(t, 6);
    TrimLeftEnds(u, 1);
    SuffixOn(TrimLeft(u[1..]), u, t);
    SuffixOn(TrimLeft(u[1..]), t, s);
  }

  /** What follows the prefix is the end of the text. */
  lemma {:induction false} AfterPrefixShorter(s: string)
    requires AfterPrefix(s).Some?
    ensures var r := AfterPrefix(s).value; |r| < |s| && r == s[|s| - |r|..]
  {
    TwoTrimsEnd(s);
  }

  // ---- the round trip -----------------------------------------------------

  lemma {:induction false} PrintStartsWithName(cs: seq<Cookie>)
    requires cs != []
    ensures Print(cs) == cs[0].name + ("=" + cs[0].value + Tail(cs[1..]))
  {
    var c, tail := cs[0], Tail(cs[1..]);
    PrintHeadTail(cs);
    Associates(c.name, "=", c.value);
    Associates(c.name, "=" + c.value, tail);
  }

  lemma {:induction false} PrefixOfPrint(cs: seq<Cookie>)
    requires AllClean(cs) && cs != []
    ensures var p := AfterPrefix(cs[0].name);
            AfterPrefix(Print(cs)) == if p.Some? then Some(p.value + ("=" + cs[0].value + Tail(cs[1..]))) else None
  {
    assert cs[0] in cs;
    PrintStartsWithName(cs);
    PrefixIsOfName(cs[0].name, "=" + cs[0].value + Tail(cs[1..]));
  }

  lemma {:induction false} ParseTrimmed(text: string)
    requires Trimmed(text)
    ensures ParseHeader(text) == Parts(StripPrefixes(text, true))
  {
    TrimSame(text);
  }

  lemma {:induction false} PartsOfPrint(cs: seq<Cookie>)
    requires AllClean(cs) && cs != []
    ensures Parts(Print(cs)) == cs
  {
    assert cs[0] in cs;
    PrintedPart(cs[0]);
    PrintHeadTail(cs);
    PartsOfTail(PrintOne(cs[0]), cs[1..]);
    PrintedIsFound(cs[0]);
    assert cs == [cs[0]] + cs[1..];
  }

  lemma {:induction false} StrippedNone(text: string)
    requires NoBreaks(text) && AfterPrefix(text).None?
    ensures StripPrefixes(text, true) == text
  {
    if text != "" {
      NothingStripped(text[1..]);
      assert text == [text[0]] + text[1..];
    }
  }

  lemma {:induction false} ParseUnprefixed(cs: seq<Cookie>)
    requires AllClean(cs) && cs != [] && AfterPrefix(cs[0].name).None?
    ensures ParseHeader(Print(cs)) == cs
  {
    PrintNoBreaks(cs);
    ParseTrimmed(Print(cs));
    PrefixOfPrint(cs);
    StrippedNone(Print(cs));
    PartsOfPrint(cs);
  }

  /** What a cookie whose name starts with the prefix is read as. */
  function Headless(c: Cookie): string
    requires AfterPrefix(c.name).Some?
  {
    AfterPrefix(c.name).value + "=" + c.value
  }

  lemma {:induction false} StrippedOnce(text: string, rest: string)
    requires NoBreaks(text) && AfterPrefix(text) == Some(rest)
    ensures StripPrefixes(text, true) == rest
  {
    AfterPrefixShorter(text);
    assert forall k :: 0 <= k < |rest| ==> rest[k] == text[k + |text| - |rest|];
    NothingStripped(rest);
  }

  lemma {:induction false} StripPrefixed(cs: seq<Cookie>)
    requires AllClean(cs) && cs != [] && AfterPrefix(cs[0].name).Some?
    ensures StripPrefixes(Print(cs), true) == Headless(cs[0]) + Tail(cs[1..])
  {
    var name, value, tail := AfterPrefix(cs[0].name).value, cs[0].value, Tail(cs[1..]);
    PrintNoBreaks(cs);
    PrefixOfPrint(cs);
    StrippedOnce(Print(cs), name + ("=" + value + tail));
    Associates(name, "=" + value, tail);
    Associates(name, "=", value);
  }

  lemma {:induction false} HeadOfPrefixed(c: Cookie)
    requires Clean(c) && AfterPrefix(c.name).Some?
    ensures OnePart(Headless(c))
  {
    AfterPrefixShorter(c.name);
  }

  /** A first name with the prefix loses it; the other cookies are read back all the same. */
  lemma {:induction false} ParsePrefixed(cs: seq<Cookie>)
    requires AllClean(cs) && cs != [] && AfterPrefix(cs[0].name).Some?
    ensures ParseHeader(Print(cs)) == Found(Headless(cs[0])) + cs[1..]
  {
    PrintNoBreaks(cs);
    ParseTrimmed(Print(cs));
    StripPrefixed(cs);
    assert cs[0] in cs;
    HeadOfPrefixed(cs[0]);
    PartsOfTail(Headless(cs[0]), cs[1..]);
  }

  /** The name found is no longer than what stands before the first equals sign. */
  lemma {:induction false} NameFromFront(raw: string, n: nat)
    requires n < |raw| && raw[n] == '=' && CookieOf(raw).Some?
    ensures |CookieOf(raw).value.name| <= n
  {
    var left := TrimLeft(raw);
    var part := Trim(raw);
    TrimLeftIs(raw);
    TrimRightIs(left);
    var cut := |raw| - |left|;
    if cut > n { TrimLeftDropsSpace(raw, n); }
    assert left[n - cut] == '=';
    IndexOfIs(part, '=');
    var i := IndexOf(part, '=');
    assert n - cut < |part| ==> part[n - cut] == '=';
    TrimLeftIs(part[..i]);
    TrimRightIs(TrimLeft(part[..i]));
  }

  lemma {:induction false} ShorterName(head: string, c: Cookie)
    requires |head| < |c.name| && '=' !in head
    ensures Found(head + "=" + c.value) != [c]
  {
    var raw := head + "=" + c.value;
    if Found(raw) == [c] {
      var part := Trim(raw);
      IndexOfIs(part, '=');
      TrimIs(raw);
      NameFromFront(raw, |head|);
    }
  }

  lemma {:induction false} FrontDiffers(front: seq<Cookie>, cs: seq<Cookie>)
    requires cs != [] && |front| <= 1 && front != [cs[0]]
    ensures front + cs[1..] != cs
  {
    if |front| == 1 { assert (front + cs[1..])[0] == front[0] && front == [front[0]]; }
  }

  /** Parsing a printed header gives the same cookies back exactly when each can be carried by a header and the
      first name does not itself start like a header prefix. */
  lemma {:induction false} RoundTripExactly(cs: seq<Cookie>)
    ensures ParseHeader(Print(cs)) == cs <==> AllClean(cs) && (cs != [] ==> AfterPrefix(cs[0].name).None?)
  {
    PartsAreClean(StripPrefixes(Trim(Print(cs)), true));
    if AllClean(cs) && cs != [] {
      if AfterPrefix(cs[0].name).Some? {
        assert cs[0] in cs;
        ParsePrefixed(cs);
        AfterPrefixShorter(cs[0].name);
        ShorterName(AfterPrefix(cs[0].name).value, cs[0]);
        FrontDiffers(Found(Headless(cs[0])), cs);
      } else {
        ParseUnprefixed(cs);
      }
    }
  }

  // ---- deduplication ------------------------------------------------------

  predicate DistinctNames(cs: seq<Cookie>) {
    forall j, k :: 0 <= j < k < |cs| ==> cs[j].name != cs[k].name
  }

  /** The names in the order they first occur. */
  function FirstNames(cs: seq<Cookie>): seq<string> {
    if cs == [] then []
    else
      var front := FirstNames(cs[..|cs| - 1]);
      if cs[|cs| - 1].name in front then front else front + [cs[|cs| - 1].name]
  }

  /** The value a name has last. */
  function LastValue(cs: seq<Cookie>, name: string): string {
    if cs == [] then "" else if cs[|cs| - 1].name == name then cs[|cs| - 1].value else LastValue(cs[..|cs| - 1], name)
  }

  lemma {:induction false} PutShape(cs: seq<Cookie>, c: Cookie)
    requires DistinctNames(cs)
    ensures var out := Put(cs, c);
            && |out| == (if exists x <- cs :: x.name == c.name then |cs| else |cs| + 1)
            && (forall k :: 0 <= k < |cs| ==> out[k] == if cs[k].name == c.name then c else cs[k])
            && ((forall x <- cs :: x.name != c.name) ==> out == cs + [c])
  {
    if cs != [] && cs[0].name != c.name {
      PutShape(cs[1..], c);
      assert cs == [cs[0]] + cs[1..];
    }
  }

  lemma {:induction false} PutAt(cs: seq<Cookie>, c: Cookie)
    requires DistinctNames(cs)
    ensures var out := Put(cs, c);
            && DistinctNames(out)
            && |out| == (if exists x <- cs :: x.name == c.name then |cs| else |cs| + 1)
            && (forall k :: 0 <= k < |cs| ==> out[k] == if cs[k].name == c.name then c else cs[k])
            && ((forall x <- cs :: x.name != c.name) ==> out == cs + [c])
  {
    PutShape(cs, c);
    var out := Put(cs, c);
    forall j, k | 0 <= j < k < |out| ensures out[j].name != out[k].name {
      assert cs[j] in cs && (k < |cs| ==> cs[k] in cs);
    }
  }

  lemma {:induction false} NamesInStep(out: seq<Cookie>, names: seq<string>, name: string)
    requires |out| == |names| && forall k :: 0 <= k < |out| ==> out[k].name == names[k]
    ensures name in names <==> exists x <- out :: x.name == name
  {
    if name in names {
      var k :| 0 <= k < |names| && names[k] == name;
      assert out[k] in out;
    }
  }

  /** Deduplication keeps each name once, where it first stood, with the value it had last. */
  lemma {:induction false} DedupeKeepsFirstPlaceLastValue(cs: seq<Cookie>)
    ensures var out, names := Dedupe(cs), FirstNames(cs);
            && DistinctNames(out) && |out| == |names|
            && (forall k :: 0 <= k < |out| ==> out[k] == Cookie(names[k], LastValue(cs, names[k])))
  {
    if cs != [] {
      var front, c := cs[..|cs| - 1], cs[|cs| - 1];
      DedupeKeepsFirstPlaceLastValue(front);
      PutAt(Dedupe(front), c);
      NamesInStep(Dedupe(front), FirstNames(front), c.name);
    }
  }

  lemma {:induction false} DedupeDistinct(cs: seq<Cookie>)
    requires DistinctNames(cs)
    ensures Dedupe(cs) == cs
  {
    if cs != [] {
      var front, c := cs[..|cs| - 1], cs[|cs| - 1];
      DedupeDistinct(front);
      assert cs == front + [c];
      PutAt(front, c);
    }
  }

  lemma {:induction false} PutKeepsFirst(cs: seq<Cookie>, c: Cookie)
    ensures var out := Put(cs, c);
            && |cs| <= |out| <= |cs| + 1 && out != [] && out[0].name == (if cs == [] then c else cs[0]).name
            && forall x <- out :: x == c || x in cs
  {
    if cs != [] && cs[0].name != c.name { PutKeepsFirst(cs[1..], c); }
  }

  /** Deduplication makes no cookie up, and starts with the name it was given first. */
  lemma {:induction false} DedupeKeepsFirst(cs: seq<Cookie>)
    ensures var out := Dedupe(cs);
            && |out| <= |cs| && (forall x <- out :: x in cs) && (cs != [] ==> out != [] && out[0].name == cs[0].name)
  {
    if cs != [] {
      DedupeKeepsFirst(cs[..|cs| - 1]);
      PutKeepsFirst(Dedupe(cs[..|cs| - 1]), cs[|cs| - 1]);
      assert cs == cs[..|cs| - 1] + [cs[|cs| - 1]];
    }
  }

  /** The cookie read from a name without its prefix has another name. */
  lemma {:induction false} OtherName(c: Cookie)
    requires Clean(c) && AfterPrefix(c.name).Some? && CookieOf(Headless(c)).Some?
    ensures CookieOf(Headless(c)).value.name != c.name
  {
    var head := AfterPrefix(c.name).value;
    AfterPrefixShorter(c.name);
    assert Headless(c) == head + "=" + c.value;
    NameFromFront(Headless(c), |head|);
  }

  /** A first name with the prefix is imported as another name or not at all. */
  lemma {:induction false} PrefixedImport(cs: seq<Cookie>)
    requires AllClean(cs) && cs != [] && AfterPrefix(cs[0].name).Some?
    ensures Dedupe(ParseHeader(Print(cs))) != cs
  {
    var found := Found(Headless(cs[0]));
    var read := found + cs[1..];
    assert cs[0] in cs;
    ParsePrefixed(cs);
    DedupeKeepsFirst(read);
    if found != [] {
      OtherName(cs[0]);
      assert read[0] == found[0];
    }
  }

  /** Whatever is imported is clean and has distinct names. */
  lemma {:induction false} ImportIsClean(text: string)
    ensures Import(text).Some? ==> Import(text).value != [] && AllClean(Import(text).value) && DistinctNames(Import(text).value)
  {
    var read := ParseHeader(Trim(text));
    PartsAreClean(StripPrefixes(Trim(Trim(text)), true));
    DedupeKeepsFirst(read);
    DedupeKeepsFirstPlaceLastValue(read);
  }

  /** An imported header gives back exactly the printed cookies, whatever they are, when there are some, each can be
      carried by a header, their names are distinct, and the first name does not start like a header prefix. */
  lemma {:induction false} ImportExactly(cs: seq<Cookie>)
    ensures Import(Print(cs)) == Some(cs) <==>
            cs != [] && AllClean(cs) && DistinctNames(cs) && AfterPrefix(cs[0].name).None?
  {
    ImportIsClean(Print(cs));
    if cs != [] && AllClean(cs) && DistinctNames(cs) {
      PrintNoBreaks(cs);
      TrimSame(Print(cs));
      RoundTripExactly(cs);
      if AfterPrefix(cs[0].name).Some? { PrefixedImport(cs); } else { DedupeDistinct(cs); }
    }
  }
}
