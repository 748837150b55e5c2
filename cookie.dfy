/**
 * `getCookie(cname)`, written out identically in src/components/App/App.tsx
 * and src/components/CategoryPage/CategoryPage.tsx. The cookie string is a
 * parameter (it is `document.cookie` in the source) and
 * `decodeURIComponent` is taken as the identity.
 */
module Cookie {

  /** Rejoins the pieces of a split with the separator between them. */
  function Join(parts: seq<string>, sep: char): string
    requires |parts| >= 1
  {
    if |parts| == 1 then parts[0] else parts[0] + [sep] + Join(parts[1..], sep)
  }

  /** `s.split(sep)`: always at least one piece, none holding the separator, and joining them back gives `s`. */
  function Split(s: string, sep: char): (parts: seq<string>)
    ensures |parts| >= 1
    ensures forall i :: 0 <= i < |parts| ==> sep !in parts[i]
    ensures Join(parts, sep) == s
  {
    if s == [] then [""]
    else
      var rest := Split(s[1..], sep);
      if s[0] == sep then
        assert Join([""] + rest, sep) == [sep] + Join(rest, sep) by {
          assert ([""] + rest)[1..] == rest;
        }
        [""] + rest
      else
        var parts := [[s[0]] + rest[0]] + rest[1..];
        assert Join(parts, sep) == [s[0]] + Join(rest, sep) by {
          if |rest| > 1 {
            assert parts[1..] == rest[1..];
          }
        }
        parts
  }

  /** The segment with its leading spaces removed (the `while (c.charAt(0) === ' ')` loop). */
  function StripLeadingSpaces(c: string): (r: string)
    ensures |r| <= |c| && r == c[|c| - |r|..]
    ensures forall k :: 0 <= k < |c| - |r| ==> c[k] == ' '
    ensures r == [] || r[0] != ' '
  {
    if |c| > 0 && c[0] == ' ' then
      var r := StripLeadingSpaces(c[1..]);
      assert c[1..][|c| - 1 - |r|..] == c[|c| - |r|..];
      assert forall k :: 1 <= k < |c| - |r| ==> c[k] == c[1..][k - 1];
      r
    else c
  }

  /** The rest of the first segment that starts with `name` once its leading spaces are stripped; `""` if none does. */
  function FirstValue(segments: seq<string>, name: string): string
  {
    if segments == [] then ""
    else
      var c := StripLeadingSpaces(segments[0]);
      if name <= c then c[|name|..] else FirstValue(segments[1..], name)
  }

  /** What `getCookie(cname)` returns for the cookie string `cookie`. */
  function CookieValue(cookie: string, cname: string): string
  {
    FirstValue(Split(cookie, ';'), cname + "=")
  }

  /** Segment `i` of the cookie, stripped, starts with `cname=`. */
  predicate MatchesAt(cookie: string, cname: string, i: nat)
    requires i < |Split(cookie, ';')|
  {
    cname + "=" <= StripLeadingSpaces(Split(cookie, ';')[i])
  }

  /** The inner loop of `getCookie`: drop one leading space at a time. */
  method StripSpaces(segment: string) returns (c: string)
    ensures c == StripLeadingSpaces(segment)
  {
    c := segment;
    while |c| > 0 && c[0] == ' '
      invariant StripLeadingSpaces(c) == StripLeadingSpaces(segment)
    {
      c := c[1..];
    }
  }

  /** The loops of `getCookie`: over the `;`-separated segments, stripping the leading spaces of each. */
  method GetCookie(cookie: string, cname: string) returns (value: string)
    ensures value == CookieValue(cookie, cname)
  {
    var name := cname + "=";
    var ca := Split(cookie, ';');
    for i := 0 to |ca|
      invariant FirstValue(ca[i..], name) == FirstValue(ca, name)
    {
      var c := StripSpaces(ca[i]);
      assert ca[i..][0] == ca[i] && ca[i..][1..] == ca[i + 1..];
      if name <= c {
        return c[|name|..];
      }
    }
    return "";
  }

  /** No segment starts with `cname=`: the result is the empty string. */
  lemma {:induction false} NoMatchGivesEmpty(cookie: string, cname: string)
    requires forall i :: 0 <= i < |Split(cookie, ';')| ==> !MatchesAt(cookie, cname, i)
    ensures CookieValue(cookie, cname) == ""
  {
    var segments := Split(cookie, ';');
    forall j | 0 <= j < |segments| ensures !(cname + "=" <= StripLeadingSpaces(segments[j])) {
      assert !MatchesAt(cookie, cname, j);
    }
    NoMatchInSuffix(segments, cname + "=", 0);
  }

  lemma {:induction false} NoMatchInSuffix(segments: seq<string>, name: string, from: nat)
    requires from <= |segments|
    requires forall i :: from <= i < |segments| ==> !(name <= StripLeadingSpaces(segments[i]))
    ensures FirstValue(segments[from..], name) == ""
    decreases |segments| - from
  {
    if from < |segments| {
      assert segments[from..][1..] == segments[from + 1..];
      NoMatchInSuffix(segments, name, from + 1);
    }
  }

  /**
   * The first matching segment decides: with segment `i` the first whose
   * stripped form starts with `cname=`, that stripped segment is `cname=`
   * followed by the result, and the result holds no `;`.
   */
  lemma {:induction false} FirstMatchGivesValue(cookie: string, cname: string, i: nat)
    requires i < |Split(cookie, ';')|
    requires MatchesAt(cookie, cname, i)
    requires forall j :: 0 <= j < i ==> !MatchesAt(cookie, cname, j)
    ensures cname + "=" + CookieValue(cookie, cname) == StripLeadingSpaces(Split(cookie, ';')[i])
    ensures ';' !in CookieValue(cookie, cname)
  {
    var name := cname + "=";
    var segments := Split(cookie, ';');
    forall j | 0 <= j < i ensures !(name <= StripLeadingSpaces(segments[j])) {
      assert !MatchesAt(cookie, cname, j);
    }
    FirstMatchInSuffix(segments, name, 0, i);
    assert segments[0..] == segments;
    MatchedSegment(segments[i], name);
  }

  /** A segment free of `;` whose stripped form starts with `name`: `name` and the rest make it up again, and the rest holds no `;`. */
  lemma MatchedSegment(segment: string, name: string)
    requires ';' !in segment
    requires name <= StripLeadingSpaces(segment)
    ensures var c := StripLeadingSpaces(segment);
      name + c[|name|..] == c && ';' !in c[|name|..]
  {
    var c := StripLeadingSpaces(segment);
    forall k | 0 <= k < |c| ensures c[k] != ';' {
      var j := |segment| - |c| + k;
      assert c[k] == segment[j];
      assert segment[j] in segment;
    }
    RestAfterPrefix(c, name);
  }

  lemma RestAfterPrefix(c: string, name: string)
    requires ';' !in c
    requires name <= c
    ensures name + c[|name|..] == c && ';' !in c[|name|..]
  {
    var v := c[|name|..];
    assert name == c[..|name|];
    assert name + v == c;
    forall k | 0 <= k < |v| ensures v[k] != ';' {
      assert v[k] == c[|name| + k];
    }
  }

  lemma {:induction false} FirstMatchInSuffix(segments: seq<string>, name: string, from: nat, i: nat)
    requires from <= i < |segments|
    requires name <= StripLeadingSpaces(segments[i])
    requires forall j :: from <= j < i ==> !(name <= StripLeadingSpaces(segments[j]))
    ensures FirstValue(segments[from..], name) == StripLeadingSpaces(segments[i])[|name|..]
    decreases i - from
  {
    if from < i {
      assert segments[from..][1..] == segments[from + 1..];
      FirstMatchInSuffix(segments, name, from + 1, i);
    }
  }

  /** A string without the separator is split into itself alone. */
  lemma {:induction false} SplitWithoutSeparator(s: string, sep: char)
    requires sep !in s
    ensures Split(s, sep) == [s]
  {
    if s != [] {
      SplitWithoutSeparator(s[1..], sep);
    }
  }

  /** Splitting at the first separator: the piece before it, then the split of the rest. */
  lemma {:induction false} SplitAtSeparator(a: string, sep: char, b: string)
    requires sep !in a
    ensures Split(a + [sep] + b, sep) == [a] + Split(b, sep)
  {
    if a == [] {
      assert (a + [sep] + b)[1..] == b;
    } else {
      assert (a + [sep] + b)[1..] == a[1..] + [sep] + b;
      SplitAtSeparator(a[1..], sep, b);
      assert [a[0]] + a[1..] == a;
    }
  }

  /**
   * Only leading spaces are stripped and `cname=` must start the segment: in
   * `x<cname>=<other>; <cname>=<value>` the first segment does not match
   * (it merely contains `cname=`), the second does once its space is
   * stripped, and the result is `value`. With `cname` = `token`, the cookie
   * `xtoken=a; token=b` gives `b`.
   */
  lemma PrefixMustStartSegment(cname: string, other: string, value: string)
    requires cname != [] && cname[0] != ' ' && '=' !in cname && ';' !in cname
    requires ';' !in other && ';' !in value
    ensures CookieValue("x" + cname + "=" + other + "; " + cname + "=" + value, cname) == value
  {
    var name := cname + "=";
    var first := "x" + cname + "=" + other;
    var second := " " + cname + "=" + value;
    SplitTwo(first, second);
    assert first + [';'] + second == "x" + cname + "=" + other + "; " + cname + "=" + value;
    NameInsideDoesNotMatch(cname, other);
    NameAfterSpaceMatches(cname, value);
    FirstMatchInSuffix([first, second], name, 0, 1);
    assert [first, second][0..] == [first, second];
    assert (name + value)[|name|..] == value;
  }

  lemma SplitTwo(first: string, second: string)
    requires ';' !in first && ';' !in second
    ensures Split(first + [';'] + second, ';') == [first, second]
  {
    SplitWithoutSeparator(second, ';');
    SplitAtSeparator(first, ';', second);
  }

  lemma NameInsideDoesNotMatch(cname: string, other: string)
    requires cname != [] && '=' !in cname && ';' !in cname && ';' !in other
    ensures var first := "x" + cname + "=" + other;
      ';' !in first && StripLeadingSpaces(first) == first && !(cname + "=" <= first)
  {
    var name := cname + "=";
    var first := "x" + cname + "=" + other;
    assert first == "x" + cname + ("=" + other);
    assert first[|cname|] == cname[|cname| - 1];
    assert cname[|cname| - 1] in cname;
    assert name[|cname|] != first[|cname|];
  }

  lemma NameAfterSpaceMatches(cname: string, value: string)
    requires cname != [] && cname[0] != ' ' && ';' !in cname && ';' !in value
    ensures var second := " " + cname + "=" + value;
      ';' !in second && StripLeadingSpaces(second) == cname + "=" + value &&
      cname + "=" <= StripLeadingSpaces(second)
  {
    var rest := cname + ("=" + value);
    assert rest == cname + "=" + value;
    assert ';' !in rest;
    assert rest[0] == cname[0];
    assert StripLeadingSpaces(rest) == rest;
    var second := [' '] + rest;
    assert second == " " + cname + "=" + value;
    assert second[1..] == rest;
    assert cname + "=" <= rest;
  }
}
