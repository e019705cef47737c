/** The few string operations the services rely on: decimal rendering of
    a replica index, its reader, and the two slug helpers. */
module Text {

  const DIGITS: string := "0123456789"

  predicate IsDigit(c: char) { '0' <= c <= '9' }

  /** strconv.Itoa on a non-negative number. */
  function Itoa(n: nat): (s: string)
    ensures s != []
    ensures forall i :: 0 <= i < |s| ==> IsDigit(s[i])
  {
    if n < 10 then [DIGITS[n]] else Itoa(n / 10) + [DIGITS[n % 10]]
  }

  function DigitValue(c: char): nat
    requires IsDigit(c)
  {
    (c as int) - ('0' as int)
  }

  /** The leading decimal digits of a text, read as a number; 0 when there
      are none. This is what fmt.Sscanf("%d") leaves behind for the
      unsigned labels the service writes. */
  function ReadFrom(s: string, acc: nat): nat {
    if s == [] || !IsDigit(s[0]) then acc
    else ReadFrom(s[1..], 10 * acc + DigitValue(s[0]))
  }

  function ReadNumber(s: string): nat { ReadFrom(s, 0) }

  lemma {:induction false} ReadFromSnoc(s: string, c: char, acc: nat)
    requires IsDigit(c)
    requires forall i :: 0 <= i < |s| ==> IsDigit(s[i])
    ensures ReadFrom(s + [c], acc) == 10 * ReadFrom(s, acc) + DigitValue(c)
  {
    if s == [] {
      assert (s + [c])[1..] == [];
    } else {
      assert (s + [c])[1..] == s[1..] + [c];
      ReadFromSnoc(s[1..], c, 10 * acc + DigitValue(s[0]));
    }
  }

  /** Reading back a rendered index gives the index. */
  lemma {:induction false} ReadItoa(n: nat)
    ensures ReadNumber(Itoa(n)) == n
  {
    if n < 10 {
      var d := DIGITS[n];
      assert DigitValue(d) == n;
      assert [d][1..] == [];
      assert ReadFrom([d], 0) == ReadFrom([d][1..], n);
    } else {
      ReadItoa(n / 10);
      ReadFromSnoc(Itoa(n / 10), DIGITS[n % 10], 0);
      assert DigitValue(DIGITS[n % 10]) == n % 10;
    }
  }

  /** No leading zero: an index has one rendering only. */
  lemma {:induction false} ItoaCanonical(n: nat)
    ensures |Itoa(n)| > 1 ==> Itoa(n)[0] != '0'
    ensures n > 0 ==> Itoa(n)[0] != '0'
  {
    if n >= 10 {
      ItoaCanonical(n / 10);
    }
  }

  // ----- blanks -----

  /** unicode.IsSpace. */
  predicate IsSpace(c: char) {
    var n := c as int;
    9 <= n <= 13 || n in {0x20, 0x85, 0xA0, 0x1680, 0x2028, 0x2029, 0x202F, 0x205F, 0x3000} || 0x2000 <= n <= 0x200A
  }

  const SPACES: string := "\t\n\U{000B}\U{000C}\r \U{0085}\U{00A0}\U{1680}\U{2000}\U{2001}\U{2002}\U{2003}\U{2004}\U{2005}\U{2006}\U{2007}\U{2008}\U{2009}\U{200A}\U{2028}\U{2029}\U{202F}\U{205F}\U{3000}"

  /** Exactly the 25 white space characters, one by one. */
  lemma SpaceExactly(c: char)
    ensures IsSpace(c) <==> exists i :: 0 <= i < 25 && SPACES[i] == c
  {
    var n := c as int;
    if 0x2000 <= n <= 0x200A {
      assert SPACES[9 + (n - 0x2000)] == c;
    }
    assert 9 <= n <= 13 ==> SPACES[n - 9] == c;
    assert SPACES[5] as int == 0x20 && SPACES[6] as int == 0x85 && SPACES[7] as int == 0xA0 && SPACES[8] as int == 0x1680;
    assert IsSpace(c) && n > 0x200A ==> c in SPACES[20..];
  }

  function TrimLeft(s: string): string { if s != "" && IsSpace(s[0]) then TrimLeft(s[1..]) else s }

  function TrimRight(s: string): string { if s != "" && IsSpace(s[|s| - 1]) then TrimRight(s[..|s| - 1]) else s }

  /** strings.TrimSpace. */
  function TrimSpace(s: string): string { TrimRight(TrimLeft(s)) }

  predicate Blank(s: string) { forall i :: 0 <= i < |s| ==> IsSpace(s[i]) }

  lemma {:induction false} TrimLeftBlank(s: string)
    ensures TrimLeft(s) == "" <==> Blank(s)
    ensures TrimLeft(s) != "" ==> !IsSpace(TrimLeft(s)[0])
  {
    if s != "" && IsSpace(s[0]) {
      TrimLeftBlank(s[1..]);
      assert s == [s[0]] + s[1..];
    }
  }

  lemma {:induction false} TrimRightKeeps(s: string)
    ensures s != "" && !IsSpace(s[0]) ==> TrimRight(s) != ""
  {
    if s != "" && IsSpace(s[|s| - 1]) {
      TrimRightKeeps(s[..|s| - 1]);
    }
  }

  /** A text is blank exactly when nothing is left of it once trimmed. */
  lemma BlankIsTrimmed(s: string)
    ensures Blank(s) <==> TrimSpace(s) == ""
  {
    TrimLeftBlank(s);
    TrimRightKeeps(TrimLeft(s));
  }

  // ----- slugs -----

  function LowerChar(c: char): char {
    if 'A' <= c <= 'Z' then ((c as int) + 32) as char else c
  }

  /** workload slugify: lower case, blanks and underscores become dashes. */
  function WorkloadSlugChar(c: char): char {
    var l := LowerChar(c);
    if l == ' ' || l == '_' then '-' else l
  }

  /** instance slugify: lower case, blanks become dashes. */
  function InstanceSlugChar(c: char): char {
    var l := LowerChar(c);
    if l == ' ' then '-' else l
  }

  function WorkloadSlug(name: string): (s: string)
    ensures |s| == |name|
  {
    seq(|name|, i requires 0 <= i < |name| => WorkloadSlugChar(name[i]))
  }

  function InstanceSlug(name: string): (s: string)
    ensures |s| == |name|
  {
    seq(|name|, i requires 0 <= i < |name| => InstanceSlugChar(name[i]))
  }

  /** What the two helpers do to each character: upper case is lowered, blanks
      become dashes, underscores too in the workload's, and everything else
      stays. */
  lemma SlugChars(name: string, i: nat)
    requires i < |name|
    ensures var c, w, v := name[i], WorkloadSlug(name)[i], InstanceSlug(name)[i];
      && !('A' <= w <= 'Z') && !('A' <= v <= 'Z') && w != ' ' && v != ' ' && w != '_'
      && (c == ' ' ==> w == '-' && v == '-') && (c == '_' ==> w == '-' && v == '_')
      && ('A' <= c <= 'Z' ==> w == v && 'a' <= w && w as int - 'a' as int == c as int - 'A' as int)
      && (c != ' ' && !('A' <= c <= 'Z') ==> v == c && (c != '_' ==> w == c))
  {}

  function UpperChar(c: char): char { if 'a' <= c <= 'z' then ((c as int) - 32) as char else c }

  /** The environment name a secret is exposed under. */
  function EnvName(name: string): (s: string)
    ensures |s| == |name|
    ensures forall i :: 0 <= i < |s| ==> s[i] != '-' && !('a' <= s[i] <= 'z')
    ensures forall i :: 0 <= i < |s| ==>
      (name[i] == '-' ==> s[i] == '_') && (name[i] != '-' && !('a' <= name[i] <= 'z') ==> s[i] == name[i])
    ensures forall i :: 0 <= i < |s| && 'a' <= name[i] <= 'z' ==> s[i] as int - 'A' as int == name[i] as int - 'a' as int
  {
    seq(|name|, i requires 0 <= i < |name| => if name[i] == '-' then '_' else UpperChar(name[i]))
  }

  /** The name a replica is created under: "<workload slug>-<index>". */
  function ReplicaName(slug: string, index: nat): string {
    slug + "-" + Itoa(index)
  }

  /** A slug already produced by the workload helper. */
  predicate Slugged(slug: string) { WorkloadSlug(slug) == slug }

  lemma SlugIsSlugged(name: string)
    ensures Slugged(WorkloadSlug(name))
  {
    var s := WorkloadSlug(name);
    forall i | 0 <= i < |s| ensures WorkloadSlug(s)[i] == s[i] {}
  }

  /** The slug spawnReplica looks up and the slug instance creation stores
      are the same text, although the two packages use different helpers. */
  lemma LookupSlugIsStoredSlug(slug: string, index: nat)
    requires Slugged(slug)
    ensures WorkloadSlug(ReplicaName(slug, index)) == ReplicaName(slug, index)
    ensures InstanceSlug(ReplicaName(slug, index)) == ReplicaName(slug, index)
  {
    var name := ReplicaName(slug, index);
    var digits := Itoa(index);
    forall i | 0 <= i < |name|
      ensures WorkloadSlugChar(name[i]) == name[i] && InstanceSlugChar(name[i]) == name[i]
    {
      if i < |slug| {
        assert name[i] == slug[i];
        assert WorkloadSlug(slug)[i] == slug[i];
      } else if i > |slug| {
        assert name[i] == digits[i - |slug| - 1];
      }
    }
    assert WorkloadSlug(name) == name;
    assert InstanceSlug(name) == name;
  }

  /** A replica slug determines both the workload slug and the index. */
  lemma ReplicaNameInjective(s1: string, i1: nat, s2: string, i2: nat)
    requires ReplicaName(s1, i1) == ReplicaName(s2, i2)
    ensures s1 == s2 && i1 == i2
  {
    var n := ReplicaName(s1, i1);
    LastDash(s1, i1);
    LastDash(s2, i2);
    assert |s1| == |s2|;
    assert s1 == n[..|s1|] == s2;
    assert Itoa(i1) == n[|s1| + 1..] == Itoa(i2);
    ReadItoa(i1);
    ReadItoa(i2);
  }

  lemma LastDash(slug: string, index: nat)
    ensures var n := ReplicaName(slug, index);
      && |slug| < |n| && n[|slug|] == '-'
      && forall j :: |slug| < j < |n| ==> n[j] != '-'
  {
    var n := ReplicaName(slug, index);
    forall j | |slug| < j < |n| ensures n[j] != '-' {
      assert n[j] == Itoa(index)[j - |slug| - 1];
    }
  }
}
