// Entity tags for row versions, and the If-Match check (section 13.1.1 of RFC 9110).
module ETags {
  import opened Prelude
  import opened Text

  // ---- base 36 ----------------------------------------------------------------------------

  function Digit36(n: nat): (c: char)
    requires n < 36
    ensures Value36(c) == n && InTag(c)
  {
    if n < 10 then ('0' as int + n) as char else ('a' as int + n - 10) as char
  }

  function Value36(c: char): int {
    if '0' <= c <= '9' then c as int - '0' as int else c as int - 'a' as int + 10
  }

  // The characters a formatted number is made of.
  predicate InTag(c: char) {
    '0' <= c <= '9' || 'a' <= c <= 'z' || c == '-'
  }

  function Base36(n: nat): (s: string)
    ensures s != "" && s[0] != '-' && forall i :: 0 <= i < |s| ==> InTag(s[i])
  {
    if n < 36 then [Digit36(n)] else Base36(n / 36) + [Digit36(n % 36)]
  }

  function Number36(s: string): int {
    if s == "" then 0 else 36 * Number36(s[..|s| - 1]) + Value36(s[|s| - 1])
  }

  lemma {:induction false} Base36ReadsBack(n: nat)
    ensures Number36(Base36(n)) == n
  {
    if n < 36 {
      assert [Digit36(n)][..0] == "";
    } else {
      Base36ReadsBack(n / 36);
      var s := Base36(n / 36) + [Digit36(n % 36)];
      assert s[..|s| - 1] == Base36(n / 36);
    }
  }

  function FormatInt(n: int): (s: string)
    ensures s != "" && forall i :: 0 <= i < |s| ==> InTag(s[i])
  {
    if n < 0 then "-" + Base36(-n) else Base36(n)
  }

  lemma FormatInjective(m: int, n: int)
    requires FormatInt(m) == FormatInt(n)
    ensures m == n
  {
    assert (m < 0) == (n < 0);
    if m < 0 {
      assert FormatInt(m)[1..] == Base36(-m) && FormatInt(n)[1..] == Base36(-n);
    }
    Base36ReadsBack(if m < 0 then -m else m);
    Base36ReadsBack(if n < 0 then -n else n);
  }

  // ---- tags ---------------------------------------------------------------------------------

  // The tag of a version: its microsecond timestamp in base 36, quoted.
  function ETag(version: int): string {
    "\"" + FormatInt(version) + "\""
  }

  lemma ETagInjective(m: int, n: int)
    ensures ETag(m) == ETag(n) <==> m == n
  {
    assert ETag(m)[1..|ETag(m)| - 1] == FormatInt(m) && ETag(n)[1..|ETag(n)| - 1] == FormatInt(n);
    if ETag(m) == ETag(n) {
      FormatInjective(m, n);
    }
  }

  function SplitComma(s: string): (parts: seq<string>)
    ensures parts != []
  {
    if s == "" then [""]
    else
      var rest := SplitComma(s[1..]);
      if s[0] == ',' then [""] + rest else [[s[0]] + rest[0]] + rest[1..]
  }

  function StripWeak(tag: string): string {
    if |tag| >= 2 && tag[..2] == "W/" then tag[2..] else tag
  }

  function TagOf(part: string): string {
    StripWeak(Trim(part))
  }

  // No header or "*" asks for no check; otherwise some listed tag, weak or not, is current.
  ghost predicate Accepts(ifMatch: string, version: int) {
    var s := Trim(ifMatch);
    s == "" || s == "*" || exists i :: 0 <= i < |SplitComma(s)| && TagOf(SplitComma(s)[i]) == ETag(version)
  }

  method CheckIfMatch(ifMatch: string, version: int) returns (ok: bool)
    ensures ok <==> Accepts(ifMatch, version)
  {
    var s := Trim(ifMatch);
    if s == "" || s == "*" {
      return true;
    }
    var current := ETag(version);
    var tags := SplitComma(s);
    for i := 0 to |tags|
      invariant forall k :: 0 <= k < i ==> TagOf(tags[k]) != current
    {
      if TagOf(tags[i]) == current {
        return true;
      }
    }
    ok := false;
  }

  // ---- what a client may send back -------------------------------------------------------------

  const SPACE := " "

  // A tag as a server or a proxy hands it out.
  function Sent(version: int, weak: bool): string {
    if weak then "W/" + ETag(version) else ETag(version)
  }

  lemma SentShape(version: int, weak: bool)
    ensures var t := Sent(version, weak);
      && t != "" && t != "*" && !IsSpace(t[0]) && !IsSpace(t[|t| - 1]) && ',' !in t && StripWeak(t) == ETag(version)
  {
    var t := Sent(version, weak);
    var e := ETag(version);
    assert e[0] == '"' && e[|e| - 1] == '"';
    forall i | 0 <= i < |e|
      ensures e[i] != ','
    {
      assert 0 < i < |e| - 1 ==> e[i] == FormatInt(version)[i - 1];
    }
    if weak {
      assert t[..2] == "W/" && t[2..] == e;
    } else {
      assert t[..1] != "W";
    }
  }

  lemma TrimOneSpace(s: string)
    requires s != "" && !IsSpace(s[0]) && !IsSpace(s[|s| - 1])
    ensures Trim(" " + s) == s
  {
    var t := " " + s;
    assert t[0] == ' ' && t[1..] == s;
    assert TrimLeft(t) == TrimLeft(s) == s;
    assert TrimRight(s) == s;
  }

  lemma {:induction false} SplitWhole(s: string)
    requires ',' !in s
    ensures SplitComma(s) == [s]
  {
    if s != "" {
      SplitWhole(s[1..]);
      assert [s[0]] + s[1..] == s;
    }
  }

  lemma {:induction false} SplitFirst(a: string, rest: string)
    requires ',' !in a
    ensures SplitComma(a + "," + rest) == [a] + SplitComma(rest)
  {
    var s := a + "," + rest;
    if a == "" {
      assert s[1..] == rest;
    } else {
      assert s[1..] == a[1..] + "," + rest;
      SplitFirst(a[1..], rest);
      assert [a[0]] + a[1..] == a;
    }
  }

  datatype Tag = Tag(version: int, weak: bool)

  // A header listing tags, separated by a comma and a space.
  function Header(tags: seq<Tag>): string
    requires tags != []
  {
    var first := Sent(tags[0].version, tags[0].weak);
    if |tags| == 1 then first else first + "," + (SPACE + Header(tags[1..]))
  }

  lemma {:induction false} HeaderShape(tags: seq<Tag>)
    requires tags != []
    ensures var s := Header(tags);
      s != "" && !IsSpace(s[0]) && !IsSpace(s[|s| - 1]) && s[0] != '*' && s[0] != ','
  {
    SentShape(tags[0].version, tags[0].weak);
    if |tags| > 1 {
      HeaderShape(tags[1..]);
      var rest := Header(tags[1..]);
      assert Header(tags)[|Header(tags)| - 1] == rest[|rest| - 1];
    }
  }

  // The header split at its commas: every tag but the first follows a space.
  function Parts(tags: seq<Tag>, lead: string): (parts: seq<string>)
    ensures |parts| == |tags|
  {
    seq(|tags|, i requires 0 <= i < |tags| => (if i == 0 then lead else SPACE) + Sent(tags[i].version, tags[i].weak))
  }

  lemma PartsCons(tags: seq<Tag>, lead: string)
    requires tags != []
    ensures Parts(tags, lead) == [lead + Sent(tags[0].version, tags[0].weak)] + Parts(tags[1..], SPACE)
  {
  }

  lemma LeadMoves(lead: string, first: string, rest: string)
    ensures lead + (first + "," + rest) == lead + first + "," + rest
  {
  }

  lemma {:induction false} HeaderSplits(tags: seq<Tag>, lead: string)
    requires tags != [] && ',' !in lead
    ensures SplitComma(lead + Header(tags)) == Parts(tags, lead)
  {
    var first := Sent(tags[0].version, tags[0].weak);
    SentShape(tags[0].version, tags[0].weak);
    PartsCons(tags, lead);
    if |tags| == 1 {
      SplitWhole(lead + first);
      assert Parts(tags[1..], SPACE) == [];
    } else {
      HeaderSplits(tags[1..], SPACE);
      SplitFirst(lead + first, SPACE + Header(tags[1..]));
      LeadMoves(lead, first, SPACE + Header(tags[1..]));
    }
  }

  lemma {:induction false} SentIsTag(version: int, weak: bool)
    ensures TagOf("" + Sent(version, weak)) == ETag(version)
    ensures TagOf(SPACE + Sent(version, weak)) == ETag(version)
  {
    var t := Sent(version, weak);
    SentShape(version, weak);
    TrimNothing(t);
    TrimOneSpace(t);
    assert "" + t == t;
  }

  lemma {:induction false} PartsAreTags(tags: seq<Tag>, lead: string, i: nat)
    requires (lead == "" || lead == SPACE) && i < |tags|
    ensures |Parts(tags, lead)| == |tags| && TagOf(Parts(tags, lead)[i]) == ETag(tags[i].version)
  {
    SentIsTag(tags[i].version, tags[i].weak);
  }

  // Sent back alone or in a list, weakened or not, a tag passes exactly for its version.
  lemma {:induction false} HeaderPassesItsVersions(tags: seq<Tag>, version: int)
    requires tags != []
    ensures Accepts(Header(tags), version) <==> exists i :: 0 <= i < |tags| && tags[i].version == version
  {
    HeaderShape(tags);
    TrimNothing(Header(tags));
    HeaderSplits(tags, "");
    assert "" + Header(tags) == Header(tags);
    forall i | 0 <= i < |tags|
      ensures TagOf(SplitComma(Header(tags))[i]) == ETag(version) <==> tags[i].version == version
    {
      PartsAreTags(tags, "", i);
      ETagInjective(tags[i].version, version);
    }
  }
}
