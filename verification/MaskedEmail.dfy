/** Masking of emails in responses: two copies, one for the administrative and one for the public API. */
module MaskedEmail {
  import opened Text

  function FirstAt(s: string): (k: nat)
    ensures k <= |s| && '@' !in s[..k] && (k < |s| ==> s[k] == '@')
  {
    if s == [] || s[0] == '@' then 0 else 1 + FirstAt(s[1..])
  }

  /** `strings.Split(s, "@")`. */
  function SplitAt(s: string): seq<string>
    decreases |s|
  {
    var k := FirstAt(s);
    if k == |s| then [s] else [s[..k]] + SplitAt(s[k + 1..])
  }

  /** `strings.LastIndex(s, ".")`. */
  function LastDot(s: string): (k: int)
    ensures IsLastDot(s, k)
  {
    if s == [] then -1
    else if s[|s| - 1] == '.' then |s| - 1
    else LastDot(s[..|s| - 1])
  }

  predicate IsLastDot(s: string, k: int) {
    -1 <= k < |s| && (k >= 0 ==> s[k] == '.') && forall j :: k < j < |s| ==> s[j] != '.'
  }

  /** The copy of the administrative handler. */
  function MaskForAdmin(email: string): string {
    var normalized := TrimSpace(email);
    var parts := SplitAt(normalized);
    if |parts| != 2 then normalized
    else
      var local, domain := parts[0], parts[1];
      if local == "" then normalized
      else
        var maskedLocal := [local[0]] + "****";
        var dot := LastDot(domain);
        var cut := dot > 0 && dot < |domain| - 1;
        var name := if cut then domain[..dot] else domain;
        var suffix := if cut then domain[dot..] else "";
        if name == "" then maskedLocal + "@***" + suffix
        else maskedLocal + "@***" + [name[|name| - 1]] + suffix
  }

  /** The copy of the public handler. */
  function MaskForApi(email: string): string {
    var normalized := TrimSpace(email);
    var parts := SplitAt(normalized);
    if |parts| != 2 then normalized
    else
      var local, domain := parts[0], parts[1];
      if |local| == 0 then normalized
      else
        var dot := LastDot(domain);
        var cut := dot > 0 && dot < |domain| - 1;
        var name := if cut then domain[..dot] else domain;
        var suffix := if cut then domain[dot..] else "";
        var maskedDomain := "***" + (if |name| > 0 then [name[|name| - 1]] else "");
        [local[0]] + "****" + "@" + maskedDomain + suffix
  }

  /** The copies agree on every input. */
  lemma CopiesAgree(email: string)
    ensures MaskForAdmin(email) == MaskForApi(email)
  {
    var normalized := TrimSpace(email);
    var parts := SplitAt(normalized);
    if |parts| == 2 && parts[0] != "" {
      var a: string := [parts[0][0]] + "****";
      assert "@***" == "@" + "***";
    }
  }

  /* ---- what masking shows ---- */

  predicate OneAt(s: string) {
    |SplitAt(s)| == 2
  }

  lemma FirstAtIs(s: string, k: nat)
    requires k <= |s| && (forall j :: 0 <= j < k ==> s[j] != '@') && (k < |s| ==> s[k] == '@')
    ensures FirstAt(s) == k
  {
    var f := FirstAt(s);
    assert forall j :: 0 <= j < f ==> s[j] == s[..f][j];
  }

  /** A local part and a domain, neither containing "@". */
  lemma SplitOfPair(local: string, domain: string)
    requires '@' !in local && '@' !in domain
    ensures SplitAt(local + "@" + domain) == [local, domain]
  {
    var s := local + "@" + domain;
    FirstAtIs(s, |local|);
    FirstAtIs(domain, |domain|);
    assert s[..|local|] == local && s[|local| + 1..] == domain;
    assert SplitAt(domain) == [domain];
  }

  lemma SplitOfNone(s: string)
    requires |SplitAt(s)| <= 1
    ensures '@' !in s && SplitAt(s) == [s]
  {
    assert s[..|s|] == s;
    if FirstAt(s) < |s| {
      SplitIsNotEmpty(s[FirstAt(s) + 1..]);
    }
  }

  lemma SplitIsNotEmpty(s: string)
    ensures |SplitAt(s)| > 0
  {
  }

  lemma PairOfSplit(s: string)
    requires OneAt(s)
    ensures var parts := SplitAt(s);
            s == parts[0] + "@" + parts[1] && '@' !in parts[0] && '@' !in parts[1]
  {
    var k := FirstAt(s);
    var rest := s[k + 1..];
    assert SplitAt(s) == [s[..k]] + SplitAt(rest);
    SplitOfNone(rest);
    assert s == s[..k] + [s[k]] + rest;
  }

  /** Splitting counts the "@". */
  lemma {:induction false} SplitCounts(s: string)
    ensures |SplitAt(s)| == multiset(s)['@'] + 1
    decreases |s|
  {
    var k := FirstAt(s);
    if k < |s| {
      SplitCounts(s[k + 1..]);
      assert s == s[..k] + [s[k]] + s[k + 1..];
    }
  }

  /** A text without exactly one "@", or with nothing before it, is only trimmed. */
  lemma OthersAreOnlyTrimmed(email: string)
    requires var s := TrimSpace(email); multiset(s)['@'] != 1 || s[0] == '@'
    ensures MaskForAdmin(email) == TrimSpace(email)
  {
    var s := TrimSpace(email);
    SplitCounts(s);
    if OneAt(s) {
      PairOfSplit(s);
      FirstAtIs(s, 0);
      assert SplitAt(s)[0] == s[..0];
    }
  }

  function Suffix(domain: string): string {
    var dot := LastDot(domain);
    if dot > 0 && dot < |domain| - 1 then domain[dot..] else ""
  }

  function Name(domain: string): string {
    domain[..|domain| - |Suffix(domain)|]
  }

  /** For a local part and a domain that are not empty the mask is made of three things only: the first rune of the
      local part, the last rune of the domain name, and the suffix. */
  lemma MaskShowsThreeThings(email: string, local: string, domain: string)
    requires TrimSpace(email) == local + "@" + domain && '@' !in local && '@' !in domain && local != "" && domain != ""
    ensures Name(domain) != ""
    ensures MaskForAdmin(email) == [local[0]] + "****@***" + [Name(domain)[|Name(domain)| - 1]] + Suffix(domain)
  {
    SplitOfPair(local, domain);
    MaskOfSplit(email, local, domain);
  }

  /** With a top-level part, "ada@x.example.org" becomes "a****@***e.org". */
  lemma MaskOfAddress(email: string, local: string, name: string, top: string)
    requires TrimSpace(email) == local + "@" + name + "." + top && local != "" && name != "" && top != ""
    requires '@' !in local && '@' !in name && '@' !in top && '.' !in top
    ensures MaskForAdmin(email) == [local[0]] + "****@***" + [name[|name| - 1]] + "." + top
  {
    var domain := name + "." + top;
    Behind(local + "@", name, ".", top);
    PartsOfDomain(name, top);
    MaskShowsThreeThings(email, local, domain);
    Behind([local[0]] + "****@***" + [name[|name| - 1]], "", ".", top);
  }

  lemma Behind(front: string, a: string, b: string, c: string)
    ensures front + a + b + c == front + (a + b + c) && front + "" == front && "" + b + c == b + c
  {
  }

  lemma PartsOfDomain(name: string, top: string)
    requires name != "" && top != "" && '@' !in name && '@' !in top && '.' !in top
    ensures var domain := name + "." + top;
            domain != "" && '@' !in domain && Name(domain) == name && Suffix(domain) == "." + top
  {
    var domain := name + "." + top;
    assert forall j :: |name| < j < |domain| ==> domain[j] == top[j - |name| - 1];
    LastDotIsLast(domain, |name|);
    assert domain[..|name|] == name && domain[|name|..] == "." + top;
    NameIsWhatIsCut(domain);
  }

  /** A domain that ends in a dot, or has none behind its first rune, has no suffix to show. */
  lemma MaskOfPlainDomain(email: string, local: string, domain: string)
    requires TrimSpace(email) == local + "@" + domain && '@' !in local && '@' !in domain && local != "" && domain != ""
    requires domain[|domain| - 1] == '.' || '.' !in domain[1..]
    ensures MaskForAdmin(email) == [local[0]] + "****@***" + [domain[|domain| - 1]]
  {
    if domain[|domain| - 1] == '.' {
      LastDotIsLast(domain, |domain| - 1);
    } else {
      assert forall j :: 1 <= j < |domain| ==> domain[1..][j - 1] == domain[j];
      LastDotIsLast(domain, if domain[0] == '.' then 0 else -1);
    }
    NameIsWhatIsCut(domain);
    MaskShowsThreeThings(email, local, domain);
    NothingBehind([local[0]] + "****@***" + [domain[|domain| - 1]]);
  }

  lemma NothingBehind(s: string)
    ensures s + "" == s
  {
  }

  lemma MaskOfSplit(email: string, local: string, domain: string)
    requires SplitAt(TrimSpace(email)) == [local, domain] && local != "" && domain != ""
    ensures Name(domain) != ""
    ensures MaskForAdmin(email) == [local[0]] + "****@***" + [Name(domain)[|Name(domain)| - 1]] + Suffix(domain)
  {
    NameIsWhatIsCut(domain);
    MaskHead(local[0]);
  }

  lemma NameIsWhatIsCut(domain: string)
    requires domain != ""
    ensures var dot := LastDot(domain);
            var cut := dot > 0 && dot < |domain| - 1;
            Name(domain) == (if cut then domain[..dot] else domain) && Suffix(domain) == (if cut then domain[dot..] else "")
    ensures Name(domain) != ""
  {
  }

  lemma MaskHead(first: char)
    ensures [first] + "****" + "@***" == [first] + "****@***"
  {
  }

  /** So two such emails are masked alike exactly when they agree in those three things: nothing else shows. */
  lemma MaskHidesTheRest(e1: string, l1: string, d1: string, e2: string, l2: string, d2: string)
    requires TrimSpace(e1) == l1 + "@" + d1 && '@' !in l1 && '@' !in d1 && l1 != "" && d1 != ""
    requires TrimSpace(e2) == l2 + "@" + d2 && '@' !in l2 && '@' !in d2 && l2 != "" && d2 != ""
    ensures Name(d1) != "" && Name(d2) != ""
    ensures MaskForAdmin(e1) == MaskForAdmin(e2) <==>
              l1[0] == l2[0] && Suffix(d1) == Suffix(d2) && Name(d1)[|Name(d1)| - 1] == Name(d2)[|Name(d2)| - 1]
  {
    MaskShowsThreeThings(e1, l1, d1);
    MaskShowsThreeThings(e2, l2, d2);
    MaskParts(l1[0], Name(d1)[|Name(d1)| - 1], Suffix(d1));
    MaskParts(l2[0], Name(d2)[|Name(d2)| - 1], Suffix(d2));
  }

  lemma MaskParts(first: char, c: char, suffix: string)
    ensures var m := [first] + "****@***" + [c] + suffix;
            |m| >= 10 && m[0] == first && m[9] == c && m[10..] == suffix
  {
  }

  /* ---- masking twice ---- */

  lemma LastDotIsLast(s: string, k: int)
    requires IsLastDot(s, k)
    ensures LastDot(s) == k
  {
    assert IsLastDot(s, LastDot(s));
  }

  /** Masking the domain keeps its suffix and its name's last rune. */
  lemma MaskedDomain(domain: string)
    requires domain != ""
    ensures Name(domain) != ""
    ensures var c := Name(domain)[|Name(domain)| - 1];
            var masked := "***" + [c] + Suffix(domain);
            Suffix(masked) == Suffix(domain) && Name(masked) == "***" + [c]
  {
    var name, suffix := Name(domain), Suffix(domain);
    var c := name[|name| - 1];
    var head: string := "***" + [c];
    var masked := head + suffix;
    if suffix != "" {
      var dot := LastDot(domain);
      assert suffix == domain[dot..] && suffix[0] == '.' && suffix[1..] == domain[dot + 1..];
      assert masked[4..] == suffix && masked[5..] == suffix[1..];
      LastDotIsLast(masked, 4);
      assert masked[..4] == head;
    } else {
      assert masked == head;
      if c == '.' {
        LastDotIsLast(masked, 3);
      } else {
        assert '.' !in masked;
        LastDotIsLast(masked, -1);
      }
      assert masked[..4] == masked;
    }
  }

  lemma NameAndSuffix(domain: string)
    requires domain != ""
    ensures Name(domain) != "" && domain == Name(domain) + Suffix(domain)
  {
  }

  lemma Regroup(first: char, c: char, suffix: string)
    ensures [first] + "****@***" + [c] + suffix == ([first] + "****") + "@" + ("***" + [c] + suffix)
  {
    assert "****@***" == "****" + "@" + "***";
  }

  /** A mask that is its own trimmed form is masked to itself. */
  lemma MaskOfMask(first: char, domain: string, masked: string)
    requires first != '@' && '@' !in domain && domain != "" && Name(domain) != ""
    requires masked == [first] + "****@***" + [Name(domain)[|Name(domain)| - 1]] + Suffix(domain)
    requires TrimSpace(masked) == masked
    ensures MaskForAdmin(masked) == masked
  {
    var c, suffix := Name(domain)[|Name(domain)| - 1], Suffix(domain);
    NameAndSuffix(domain);
    MaskedDomain(domain);
    Regroup(first, c, suffix);
    assert c in domain;
    assert forall x :: x in suffix ==> x in domain;
    NoAtInMask(first, c, suffix);
    MaskOfStars(masked, first, "***" + [c] + suffix);
  }

  lemma MaskOfStars(email: string, first: char, domain: string)
    requires TrimSpace(email) == ([first] + "****") + "@" + domain && first != '@' && '@' !in domain && domain != ""
    ensures Name(domain) != ""
    ensures MaskForAdmin(email) == [first] + "****@***" + [Name(domain)[|Name(domain)| - 1]] + Suffix(domain)
  {
    var local: string := [first] + "****";
    assert local[0] == first && '@' !in local;
    MaskShowsThreeThings(email, local, domain);
  }

  lemma NoAtInMask(first: char, c: char, suffix: string)
    requires first != '@' && c != '@' && '@' !in suffix
    ensures '@' !in [first] + "****" && '@' !in "***" + [c] + suffix
    ensures ([first] + "****")[0] == first && ("***" + [c])[3] == c
  {
  }

  lemma EndsOfMask(local: string, domain: string)
    requires local != "" && domain != "" && Name(domain) != ""
    requires Trimmed(local + "@" + domain)
    ensures Trimmed([local[0]] + "****@***" + [Name(domain)[|Name(domain)| - 1]] + Suffix(domain))
  {
    NameAndSuffix(domain);
    var whole := local + "@" + domain;
    var c, suffix := Name(domain)[|Name(domain)| - 1], Suffix(domain);
    var masked := [local[0]] + "****@***" + [c] + suffix;
    assert masked[0] == local[0] == whole[0];
    assert whole[|whole| - 1] == domain[|domain| - 1];
    if suffix == "" {
      assert masked[|masked| - 1] == c == domain[|domain| - 1];
    } else {
      assert masked[|masked| - 1] == suffix[|suffix| - 1] == domain[|domain| - 1];
    }
  }

  lemma MaskOfPairIsFixed(email: string, local: string, domain: string)
    requires TrimSpace(email) == local + "@" + domain && '@' !in local && '@' !in domain && local != "" && domain != ""
    ensures MaskForAdmin(MaskForAdmin(email)) == MaskForAdmin(email)
  {
    MaskShowsThreeThings(email, local, domain);
    TrimSpaceTrims(email);
    EndsOfMask(local, domain);
    TrimSpaceFixes(MaskForAdmin(email));
    assert local[0] in local;
    MaskOfMask(local[0], domain, MaskForAdmin(email));
  }

  lemma MaskOfEmptyDomain(email: string, local: string)
    requires TrimSpace(email) == local + "@" && '@' !in local && local != ""
    ensures MaskForAdmin(email) == [local[0]] + "****@***"
    ensures MaskForAdmin(MaskForAdmin(email)) == [local[0]] + "****@****"
  {
    assert local + "@" == local + "@" + "";
    SplitOfPair(local, "");
    MaskHead(local[0]);
    assert MaskForAdmin(email) == [local[0]] + "****@***" + "";
    TrimSpaceTrims(email);
    assert TrimSpace(email)[0] == local[0] && local[0] in local;
    MaskOfBareMask(local[0]);
  }

  lemma MaskOfBareMask(first: char)
    requires first != '@' && !IsSpace(first)
    ensures MaskForAdmin([first] + "****@***") == [first] + "****@****"
  {
    var l: string := [first];
    TrimSpaceFixes(l + "****@***");
    assert l + "****@***" == (l + "****") + "@" + "***";
    MaskShowsThreeThings(l + "****@***", l + "****", "***");
    LastDotIsLast("***", -1);
    assert l + "****@***" + "*" == l + "****@****";
  }

  /** Masking twice is masking once, exactly unless the email has one "@", a local part, and nothing behind it. */
  lemma MaskingTwice(email: string)
    ensures MaskForAdmin(MaskForAdmin(email)) == MaskForAdmin(email) <==>
              !(OneAt(TrimSpace(email)) && SplitAt(TrimSpace(email))[0] != "" && SplitAt(TrimSpace(email))[1] == "")
  {
    var s := TrimSpace(email);
    TrimSpaceTrims(email);
    TrimSpaceFixes(s);
    if OneAt(s) && SplitAt(s)[0] != "" {
      PairOfSplit(s);
      var local, domain := SplitAt(s)[0], SplitAt(s)[1];
      if domain == "" {
        MaskOfEmptyDomain(email, local);
        assert |MaskForAdmin(email)| != |MaskForAdmin(MaskForAdmin(email))|;
      } else {
        MaskOfPairIsFixed(email, local, domain);
      }
    }
  }
}
