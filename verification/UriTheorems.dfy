/** The UUri grammar, the round trip and the normal form. */
module UriTheorems {
  import opened Datamodel
  import opened Hex
  import opened UriValidator
  import opened UriText

  /** A number as a segment may spell it: any case, any number of leading zeros. */
  ghost predicate Spells(seg: string, n: nat) {
    seg != [] && AllHex(seg) && Value(seg) == n
  }

  ghost predicate SpellsNumbers(tail: string, u: UUri, a: string, b: string, c: string) {
    tail == a + "/" + b + "/" + c && Spells(a, u.ueId) && Spells(b, u.version) && Spells(c, u.resource)
  }

  /** The grammar: up://AUTHORITY/ue/version/resource, //AUTHORITY/... or /... */
  ghost predicate Denotes(s: string, u: UUri) {
    exists pre, a, b, c :: DenotesVia(s, u, pre, a, b, c)
  }

  ghost predicate DenotesVia(s: string, u: UUri, pre: string, a: string, b: string, c: string) {
    SpellsVia(s, u, pre, a, b, c) && 1 <= u.version <= 0xFF && u.resource <= 0xFFFF && |u.authority| <= 128
  }

  /** The syntax alone, whatever the values. */
  ghost predicate SpellsVia(s: string, u: UUri, pre: string, a: string, b: string, c: string) {
    var tail := a + "/" + b + "/" + c;
    && SpellsNumbers(tail, u, a, b, c)
    && ((pre == "/" && u.authority == "" && s == "/" + tail)
        || ((pre == "up://" || pre == "//") && '/' !in u.authority && s == pre + (u.authority + "/" + tail)))
  }

  ghost predicate SpellsUri(s: string, u: UUri) {
    exists pre, a, b, c :: SpellsVia(s, u, pre, a, b, c)
  }

  lemma HexHasNoSlash(s: string)
    requires AllHex(s)
    ensures '/' !in s
  {
  }

  lemma NumberSegmentIff(s: string, n: Word32, rest: string)
    ensures NumberSegment(s) == Some((n, rest)) <==> exists seg :: Spells(seg, n) && s == seg + "/" + rest
  {
    SegmentSplits(s);
    if seg :| Spells(seg, n) && s == seg + "/" + rest {
      HexHasNoSlash(seg);
      SegmentOf(seg, rest);
    }
  }

  lemma TailParses(u: UUri, a: string, b: string, c: string)
    requires Spells(a, u.ueId) && Spells(b, u.version) && Spells(c, u.resource)
    ensures NumberSegment(a + "/" + b + "/" + c) == Some((u.ueId, b + "/" + c))
    ensures NumberSegment(b + "/" + c) == Some((u.version, c))
    ensures Number(c) == Some(u.resource)
  {
    assert a + "/" + b + "/" + c == a + "/" + (b + "/" + c);
    NumberSegmentIff(a + "/" + b + "/" + c, u.ueId, b + "/" + c);
    NumberSegmentIff(b + "/" + c, u.version, c);
  }

  lemma AuthorityParses(s: string, u: UUri, pre: string, a: string, b: string, c: string)
    requires SpellsVia(s, u, pre, a, b, c)
    ensures Authority(s) == Some((u.authority, a + "/" + b + "/" + c))
  {
    var tail := a + "/" + b + "/" + c;
    if pre == "/" {
      assert s[1] == a[0] && s[1..] == tail;
    } else {
      SegmentOf(u.authority, tail);
      assert s[|pre|..] == u.authority + "/" + tail;
      if pre == "//" { assert s[0] == '/'; }
    }
  }

  /** The strings that are read as four fields are exactly those of the syntax. */
  lemma FieldsIff(s: string, u: UUri)
    ensures Fields(s) == Some(u) <==> SpellsUri(s, u)
  {
    if SpellsUri(s, u) {
      var pre, a, b, c :| SpellsVia(s, u, pre, a, b, c);
      AuthorityParses(s, u, pre, a, b, c);
      TailParses(u, a, b, c);
    }
    if Fields(s) == Some(u) {
      ReadIsSpelled(s, u);
    }
  }

  /** How the authority and what follows it stand in the string. */
  lemma AuthorityRead(s: string) returns (pre: string)
    requires Authority(s).Some?
    ensures var (authority, rest) := Authority(s).value;
      || (pre == "/" && authority == "" && s == "/" + rest)
      || ((pre == "up://" || pre == "//") && '/' !in authority && s == pre + (authority + "/" + rest))
  {
    pre := if "up://" <= s then "up://" else if "//" <= s then "//" else "/";
    SegmentSplits(s[|pre|..]);
    assert s == pre + s[|pre|..];
  }

  lemma ReadIsSpelled(s: string, u: UUri)
    requires Fields(s) == Some(u)
    ensures SpellsUri(s, u)
  {
    var s1 := Authority(s).value.1;
    var s2 := NumberSegment(s1).value.1;
    var c := NumberSegment(s2).value.1;
    NumberSegmentIff(s1, u.ueId, s2);
    NumberSegmentIff(s2, u.version, c);
    var a :| Spells(a, u.ueId) && s1 == a + "/" + s2;
    var b :| Spells(b, u.version) && s2 == b + "/" + c;
    assert a + "/" + b + "/" + c == s1;
    var pre := AuthorityRead(s);
    assert SpellsVia(s, u, pre, a, b, c);
  }

  lemma DenotesIff(s: string, u: UUri)
    ensures Denotes(s, u) <==> SpellsUri(s, u) && IsValidFilter(u).ok
  {
    if Denotes(s, u) {
      var pre, a, b, c :| DenotesVia(s, u, pre, a, b, c);
      assert SpellsVia(s, u, pre, a, b, c);
    }
    if SpellsUri(s, u) && IsValidFilter(u).ok {
      var pre, a, b, c :| SpellsVia(s, u, pre, a, b, c);
      assert DenotesVia(s, u, pre, a, b, c);
    }
  }

  /** The accepted strings are exactly those of the grammar. */
  lemma ParserAcceptsGrammar(s: string, u: UUri)
    ensures Parse(s) == Ok(u) <==> Denotes(s, u)
  {
    FieldsIff(s, u);
    DenotesIff(s, u);
  }

  /** A string that follows the syntax with values the filter check refuses gets that check's
      reason; one that does not follow it is bad syntax. */
  lemma ParserRefuses(s: string, u: UUri)
    ensures SpellsUri(s, u) && !IsValidFilter(u).ok ==> Parse(s) == Err(Rejected(IsValidFilter(u).reason))
    ensures Parse(s) == Err(BadSyntax) <==> forall v :: !SpellsUri(s, v)
  {
    FieldsIff(s, u);
    forall v ensures Fields(s) == Some(v) <==> SpellsUri(s, v) {
      FieldsIff(s, v);
    }
  }

  lemma TextDenotes(u: UUri)
    requires IsValidFilter(u).ok && '/' !in u.authority
    ensures Denotes(Text(u), u)
  {
    var a, b, c := Upper(u.ueId), Upper(u.version), Upper(u.resource);
    var tail := a + "/" + b + "/" + c;
    assert Numbers(u) == "/" + tail;
    if IsLocal(u) {
      assert DenotesVia(Text(u), u, "/", a, b, c);
    } else {
      assert Text(u) == "//" + (u.authority + "/" + tail);
      assert DenotesVia(Text(u), u, "//", a, b, c);
    }
  }

  /** A URI that can be printed reads back as itself exactly when its authority has no '/'. */
  lemma RoundTripIff(u: UUri)
    requires IsValidFilter(u).ok
    ensures Parse(Text(u)) == Ok(u) <==> '/' !in u.authority
  {
    if '/' !in u.authority {
      TextDenotes(u);
      ParserAcceptsGrammar(Text(u), u);
    } else {
      ParserAcceptsGrammar(Text(u), u);
    }
  }

  /** The condition is needed: the authority a/b prints as //a/b/1/1/1, which does not parse
      back to it. */
  lemma SlashInAuthority()
    ensures var u := UUri("a/b", 1, 1, 1); IsValidFilter(u).ok && Parse(Text(u)) != Ok(u)
  {
    var u := UUri("a/b", 1, 1, 1);
    assert u.authority[1] == '/';
    RoundTripIff(u);
  }

  /** Whatever spelling was accepted, printing gives one canonical text that reads back
      as the same URI. */
  lemma NormalForm(s: string, u: UUri)
    requires Parse(s) == Ok(u)
    ensures IsValidFilter(u).ok && Parse(Text(u)) == Ok(u)
    ensures forall s', u' | Parse(s') == Ok(u') :: Text(u) == Text(u') <==> u == u'
  {
    ParserAcceptsGrammar(s, u);
    var pre, a, b, c :| DenotesVia(s, u, pre, a, b, c);
    RoundTripIff(u);
    forall s', u' | Parse(s') == Ok(u') ensures Text(u) == Text(u') <==> u == u' {
      ParserAcceptsGrammar(s', u');
      var pre', a', b', c' :| DenotesVia(s', u', pre', a', b', c');
      RoundTripIff(u');
    }
  }

  // ---------------------------------------------------------------- which spelling is canonical

  /** A number without lower-case digits and without leading zeros. */
  predicate IsTidy(seg: string) {
    && (forall i | 0 <= i < |seg| :: !('a' <= seg[i] <= 'f'))
    && (|seg| > 1 ==> seg[0] != '0')
  }

  lemma {:induction false} UpperIsTidy(n: nat)
    ensures IsTidy(Upper(n)) && (n > 0 ==> Upper(n)[0] != '0')
  {
    if n >= 16 { UpperIsTidy(n / 16); }
  }

  lemma {:induction false} LeadingDigitCounts(seg: string)
    requires seg != [] && AllHex(seg) && seg[0] != '0'
    ensures Value(seg) > 0
  {
    var n := |seg| - 1;
    if n > 0 { LeadingDigitCounts(seg[..n]); }
  }

  lemma UpperAppends(n: nat, v: nat)
    requires n > 0 && v < 16
    ensures Upper(16 * n + v) == Upper(n) + [UpperDigit(v)]
  {
    var m := 16 * n + v;
    assert m >= 16 && m / 16 == n && m % 16 == v;
    assert Upper(m) == Upper(m / 16) + [UpperDigit(m % 16)];
  }

  lemma TidyDigit(ch: char)
    requires IsHexDigit(ch) && !('a' <= ch <= 'f')
    ensures UpperDigit(DigitValue(ch)) == ch
  {
  }

  lemma TidyFront(seg: string)
    requires |seg| > 1 && AllHex(seg) && IsTidy(seg)
    ensures var front, last := seg[..|seg| - 1], seg[|seg| - 1];
      && front != [] && AllHex(front) && IsTidy(front) && front[0] != '0'
      && seg == front + [last] && IsHexDigit(last) && UpperDigit(DigitValue(last)) == last
      && Value(seg) == 16 * Value(front) + DigitValue(last)
  {
    TidyDigit(seg[|seg| - 1]);
  }

  lemma TidySingle(seg: string)
    requires |seg| == 1 && AllHex(seg) && IsTidy(seg)
    ensures seg == Upper(Value(seg))
  {
    TidyDigit(seg[0]);
    assert seg[..0] == [] && Value(seg[..0]) == 0;
    assert Value(seg) == DigitValue(seg[0]) && seg == [seg[0]];
  }

  /** Upper(n) is the only tidy spelling of n. */
  lemma {:induction false} TidyIsUpper(seg: string)
    requires seg != [] && AllHex(seg) && IsTidy(seg)
    ensures seg == Upper(Value(seg))
    decreases |seg|
  {
    if |seg| == 1 {
      TidySingle(seg);
    } else {
      TidyFront(seg);
      var front, last := seg[..|seg| - 1], seg[|seg| - 1];
      TidyIsUpper(front);
      LeadingDigitCounts(front);
      UpperAppends(Value(front), DigitValue(last));
    }
  }

  /** A spelling without scheme, without "//" where there is no authority, and with tidy numbers. */
  ghost predicate DenotesTidily(s: string, u: UUri, pre: string, a: string, b: string, c: string) {
    && DenotesVia(s, u, pre, a, b, c)
    && pre != "up://" && (u.authority == "" ==> pre != "//")
    && IsTidy(a) && IsTidy(b) && IsTidy(c)
  }

  lemma TidyIsText(s: string, u: UUri, pre: string, a: string, b: string, c: string)
    requires DenotesTidily(s, u, pre, a, b, c)
    ensures s == Text(u)
  {
    TidyIsUpper(a);
    TidyIsUpper(b);
    TidyIsUpper(c);
    TextOf(u, a, b, c);
  }

  lemma TextOf(u: UUri, a: string, b: string, c: string)
    requires a == Upper(u.ueId) && b == Upper(u.version) && c == Upper(u.resource)
    ensures var tail := a + "/" + b + "/" + c;
      Text(u) == if IsLocal(u) then "/" + tail else "//" + (u.authority + "/" + tail)
  {
    var tail := a + "/" + b + "/" + c;
    assert Numbers(u) == "/" + tail;
    assert "//" + u.authority + Numbers(u) == "//" + (u.authority + "/" + tail);
  }

  /** The printed text is that spelling, and the only one of the strings that denote the URI. */
  lemma CanonicalIff(s: string, u: UUri)
    requires IsValidFilter(u).ok && '/' !in u.authority
    ensures s == Text(u) <==> exists pre, a, b, c :: DenotesTidily(s, u, pre, a, b, c)
  {
    TextIsTidy(u);
    if pre, a, b, c :| DenotesTidily(s, u, pre, a, b, c) {
      TidyIsText(s, u, pre, a, b, c);
    }
  }

  lemma TextIsTidy(u: UUri)
    requires IsValidFilter(u).ok && '/' !in u.authority
    ensures exists pre, a, b, c :: DenotesTidily(Text(u), u, pre, a, b, c)
  {
    var a, b, c := Upper(u.ueId), Upper(u.version), Upper(u.resource);
    TextOf(u, a, b, c);
    UpperIsTidy(u.ueId);
    UpperIsTidy(u.version);
    UpperIsTidy(u.resource);
    if IsLocal(u) {
      assert DenotesTidily(Text(u), u, "/", a, b, c);
    } else {
      assert DenotesTidily(Text(u), u, "//", a, b, c);
    }
  }

  /** So whatever spelling was read, what is printed is the tidy spelling of the same URI. */
  lemma PrintsTidily(s: string, u: UUri, s': string)
    requires Parse(s) == Ok(u)
    ensures s' == Text(u) <==> exists pre, a, b, c :: DenotesTidily(s', u, pre, a, b, c)
  {
    NormalForm(s, u);
    RoundTripIff(u);
    CanonicalIff(s', u);
  }
}
