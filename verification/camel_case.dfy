/**
 The key renaming applied to every parsed option name: a kebab-case name
 such as `root-dir` becomes the camel-case name `rootDir`. The transform is
 the restricted one on lower-case letters and hyphens: each hyphen is
 removed and the character after it is upper-cased.
 */
module CamelCase {

  predicate IsLower(c: char) { 'a' <= c <= 'z' }

  predicate IsUpper(c: char) { 'A' <= c <= 'Z' }

  function ToUpper(c: char): (u: char)
    ensures IsLower(c) ==> IsUpper(u) && u as int == c as int - 32
    ensures !IsLower(c) ==> u == c
  {
    if IsLower(c) then (c as int - 32) as char else c
  }

  function ToLower(c: char): (l: char)
    ensures IsUpper(c) ==> IsLower(l) && l as int == c as int + 32
    ensures !IsUpper(c) ==> l == c
  {
    if IsUpper(c) then (c as int + 32) as char else c
  }

  predicate NoHyphen(s: string) {
    forall i :: 0 <= i < |s| ==> s[i] != '-'
  }

  /**
   Lower-case letters and hyphens where every hyphen is followed by a
   letter: the shape of a kebab-case name and of each of its suffixes
   that starts at a letter or a hyphen.
   */
  predicate Segmented(s: string) {
    forall i :: 0 <= i < |s| ==> SegmentedAt(s, i)
  }

  /** Position `i` of `s` holds a lower-case letter, or a hyphen with a letter after it. */
  predicate SegmentedAt(s: string, i: int)
    requires 0 <= i < |s|
  {
    IsLower(s[i]) || (s[i] == '-' && i + 1 < |s| && IsLower(s[i + 1]))
  }

  /** A kebab-case option name: `config`, `root-dir`, `app-index`. */
  predicate KebabName(s: string) {
    |s| > 0 && s[0] != '-' && Segmented(s)
  }

  /** kebab-case to camel-case: drop each hyphen, upper-case what follows it. */
  function Camel(s: string): string
  {
    if |s| == 0 then []
    else if s[0] == '-' then
      if |s| == 1 then [] else [ToUpper(s[1])] + Camel(s[2..])
    else [s[0]] + Camel(s[1..])
  }

  /** camel-case back to kebab-case: each upper-case letter becomes a hyphen and its lower case. */
  function Kebab(t: string): string
  {
    if |t| == 0 then []
    else if IsUpper(t[0]) then ['-', ToLower(t[0])] + Kebab(t[1..])
    else [t[0]] + Kebab(t[1..])
  }

  /** A hyphen-free name is its own camel-case form (`config`, `open`, `help`). */
  lemma {:induction false} CamelKeepsHyphenFree(s: string)
    requires NoHyphen(s)
    ensures Camel(s) == s
  {
    if |s| > 0 {
      assert s[0] != '-';
      assert NoHyphen(s[1..]) by {
        forall i | 0 <= i < |s[1..]| ensures s[1..][i] != '-' {
          assert s[1..][i] == s[i + 1];
        }
      }
      CamelKeepsHyphenFree(s[1..]);
      assert s == [s[0]] + s[1..];
    }
  }

  /** A hyphen-free prefix is kept as it is; renaming only acts on what follows it. */
  lemma {:induction false} CamelKeepsHyphenFreePrefix(a: string, b: string)
    requires NoHyphen(a)
    ensures Camel(a + b) == a + Camel(b)
  {
    if |a| > 0 {
      assert (a + b)[0] == a[0] != '-';
      assert (a + b)[1..] == a[1..] + b;
      assert NoHyphen(a[1..]) by {
        forall i | 0 <= i < |a[1..]| ensures a[1..][i] != '-' {
          assert a[1..][i] == a[i + 1];
        }
      }
      CamelKeepsHyphenFreePrefix(a[1..], b);
      calc {
        Camel(a + b);
        [a[0]] + Camel(a[1..] + b);
        [a[0]] + (a[1..] + Camel(b));
        { assert [a[0]] + a[1..] == a; }
        a + Camel(b);
      }
    } else {
      assert a + b == b && a + Camel(b) == Camel(b);
    }
  }

  /** Two hyphen-free words joined by a hyphen rename to the words joined by the upper-cased letter. */
  lemma CamelJoin(a: string, c: char, b: string)
    requires NoHyphen(a) && NoHyphen(b)
    ensures Camel(a + ['-', c] + b) == a + [ToUpper(c)] + b
  {
    var tail := ['-', c] + b;
    assert a + ['-', c] + b == a + tail;
    CamelKeepsHyphenFreePrefix(a, tail);
    assert tail[2..] == b;
    CamelKeepsHyphenFree(b);
    assert Camel(tail) == [ToUpper(c)] + b;
  }

  /** Renaming never lengthens a name, and strictly shortens any name with a hyphen. */
  lemma {:induction false} CamelLength(s: string)
    ensures |Camel(s)| <= |s|
    ensures !NoHyphen(s) ==> |Camel(s)| < |s|
  {
    if |s| == 0 {
    } else if s[0] == '-' {
      if |s| > 1 {
        CamelLength(s[2..]);
      }
    } else {
      CamelLength(s[1..]);
      if !NoHyphen(s) {
        var i :| 0 <= i < |s| && s[i] == '-';
        assert s[1..][i - 1] == '-';
      }
    }
  }

  /** A name is left unchanged by renaming exactly when it has no hyphen. */
  lemma CamelFixedIffHyphenFree(s: string)
    ensures Camel(s) == s <==> NoHyphen(s)
  {
    if NoHyphen(s) {
      CamelKeepsHyphenFree(s);
    } else {
      CamelLength(s);
    }
  }

  /** Every suffix of a segmented string is segmented. */
  lemma SegmentedTail(s: string, n: nat)
    requires Segmented(s) && n <= |s|
    ensures Segmented(s[n..])
  {
    var t := s[n..];
    forall i | 0 <= i < |t| ensures SegmentedAt(t, i) {
      assert SegmentedAt(s, n + i);
      assert t[i] == s[n + i];
      if n + i + 1 < |s| {
        assert t[i + 1] == s[n + i + 1];
      }
    }
  }

  /** The camel-case form of a segmented string has no hyphen. */
  lemma {:induction false} CamelOfSegmentedHasNoHyphen(s: string)
    requires Segmented(s)
    ensures NoHyphen(Camel(s))
  {
    if |s| == 0 {
    } else if s[0] == '-' {
      assert SegmentedAt(s, 0);
      SegmentedTail(s, 2);
      CamelOfSegmentedHasNoHyphen(s[2..]);
      var t := [ToUpper(s[1])] + Camel(s[2..]);
      assert forall i :: 1 <= i < |t| ==> t[i] == Camel(s[2..])[i - 1];
    } else {
      SegmentedTail(s, 1);
      CamelOfSegmentedHasNoHyphen(s[1..]);
      var t := [s[0]] + Camel(s[1..]);
      assert forall i :: 1 <= i < |t| ==> t[i] == Camel(s[1..])[i - 1];
    }
  }

  /** Round trip: a segmented name is recovered from its camel-case form. */
  lemma {:induction false} KebabOfCamel(s: string)
    requires Segmented(s)
    ensures Kebab(Camel(s)) == s
  {
    if |s| == 0 {
    } else if s[0] == '-' {
      assert SegmentedAt(s, 0);
      SegmentedTail(s, 2);
      KebabOfCamel(s[2..]);
      var t := [ToUpper(s[1])] + Camel(s[2..]);
      assert Camel(s) == t;
      assert t[0] == ToUpper(s[1]) && IsUpper(t[0]) && t[1..] == Camel(s[2..]);
      assert Kebab(t) == ['-', ToLower(t[0])] + Kebab(t[1..]);
      assert ToLower(t[0]) == s[1];
      assert s == ['-', s[1]] + s[2..];
    } else {
      assert SegmentedAt(s, 0);
      SegmentedTail(s, 1);
      KebabOfCamel(s[1..]);
      var t := [s[0]] + Camel(s[1..]);
      assert Camel(s) == t;
      assert t[0] == s[0] && !IsUpper(t[0]) && t[1..] == Camel(s[1..]);
      assert Kebab(t) == [t[0]] + Kebab(t[1..]);
      assert s == [s[0]] + s[1..];
    }
  }

  /** Round trip the other way: a hyphen-free name is recovered from its kebab-case form. */
  lemma {:induction false} CamelOfKebab(t: string)
    requires NoHyphen(t)
    ensures Camel(Kebab(t)) == t
  {
    if |t| == 0 {
    } else {
      assert NoHyphen(t[1..]) by {
        forall i | 0 <= i < |t[1..]| ensures t[1..][i] != '-' {
          assert t[1..][i] == t[i + 1];
        }
      }
      CamelOfKebab(t[1..]);
      if IsUpper(t[0]) {
        var k := ['-', ToLower(t[0])] + Kebab(t[1..]);
        assert k[2..] == Kebab(t[1..]);
      } else {
        var k := [t[0]] + Kebab(t[1..]);
        assert k[1..] == Kebab(t[1..]);
      }
      assert t == [t[0]] + t[1..];
    }
  }

  /** Distinct segmented names never rename to the same key. */
  lemma CamelInjective(a: string, b: string)
    requires Segmented(a) && Segmented(b)
    requires Camel(a) == Camel(b)
    ensures a == b
  {
    KebabOfCamel(a);
    KebabOfCamel(b);
  }

  /** Renaming a kebab-case name twice is the same as renaming it once. */
  lemma CamelIdempotent(s: string)
    requires Segmented(s)
    ensures Camel(Camel(s)) == Camel(s)
  {
    CamelOfSegmentedHasNoHyphen(s);
    CamelKeepsHyphenFree(Camel(s));
  }
}
