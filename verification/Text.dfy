/** The part of Rust's `str` that the modelled code uses: white space, trimming and prefixes. */
module Text {
  import opened Wrappers

  /** Unicode's `White_Space` property, as `char::is_whitespace`. */
  predicate IsWhitespace(c: char) {
    || '\t' <= c <= '\r'
    || c == ' '
    || c == '\U{0085}'
    || c == '\U{00A0}'
    || c == '\U{1680}'
    || '\U{2000}' <= c <= '\U{200A}'
    || c == '\U{2028}'
    || c == '\U{2029}'
    || c == '\U{202F}'
    || c == '\U{205F}'
    || c == '\U{3000}'
  }

  /** Unicode's category `Cc`, as `char::is_control`. */
  predicate IsControl(c: char) {
    c <= '\U{001F}' || '\U{007F}' <= c <= '\U{009F}'
  }

  predicate IsDigit(c: char) {
    '0' <= c <= '9'
  }

  ghost predicate Blank(s: string) {
    forall i :: 0 <= i < |s| ==> IsWhitespace(s[i])
  }

  function TrimStart(s: string): (r: string)
    ensures |r| <= |s|
    ensures r == "" || !IsWhitespace(r[0])
  {
    if s != "" && IsWhitespace(s[0]) then TrimStart(s[1..]) else s
  }

  function TrimEnd(s: string): (r: string)
    ensures r <= s && Blank(s[|r|..])
    ensures r == "" || !IsWhitespace(r[|r| - 1])
  {
    if s != "" && IsWhitespace(s[|s| - 1]) then TrimEnd(s[..|s| - 1]) else s
  }

  function Trim(s: string): (r: string) {
    TrimEnd(TrimStart(s))
  }

  /** The text after `prefix`, when `s` starts with it. */
  function StripPrefix(s: string, prefix: string): (r: Option<string>)
    ensures r.Some? <==> prefix <= s
    ensures r.Some? ==> s == prefix + r.value
  {
    if prefix <= s then Some(s[|prefix|..]) else None
  }

  lemma {:induction false} TrimStartSplit(s: string) returns (blank: string)
    ensures Blank(blank) && s == blank + TrimStart(s)
  {
    if s != "" && IsWhitespace(s[0]) {
      var more := TrimStartSplit(s[1..]);
      blank := s[..1] + more;
    } else {
      blank := "";
    }
  }

  lemma TrimStartOf(blank: string, rest: string)
    requires Blank(blank)
    requires rest == "" || !IsWhitespace(rest[0])
    ensures TrimStart(blank + rest) == rest
  {
    if blank == "" {
      assert blank + rest == rest;
    } else {
      assert (blank + rest)[1..] == blank[1..] + rest;
      TrimStartOf(blank[1..], rest);
    }
  }

  lemma TrimIsEmpty(s: string)
    ensures Trim(s) == "" <==> Blank(s)
  {
    var blank := TrimStartSplit(s);
    if Blank(s) {
      TrimStartOf(s, "");
      assert s + "" == s;
    }
  }

  predicate OccursAt(s: string, part: string, i: nat) {
    i + |part| <= |s| && s[i..i + |part|] == part
  }

  ghost predicate Holds(s: string, part: string) {
    exists i: nat :: OccursAt(s, part, i)
  }

  /** Where `part` first occurs in `s`, as `str::find`. */
  function Find(s: string, part: string): (r: Option<nat>)
    ensures r.Some? ==> OccursAt(s, part, r.value) && forall i: nat :: i < r.value ==> !OccursAt(s, part, i)
    ensures r == None ==> !Holds(s, part)
  {
    FindFromIndex(s, part, 0)
  }

  function FindFromIndex(s: string, part: string, start: nat): (r: Option<nat>)
    ensures r.Some? ==> start <= r.value && OccursAt(s, part, r.value)
    ensures r.Some? ==> forall i: nat :: start <= i < r.value ==> !OccursAt(s, part, i)
    ensures r == None ==> forall i: nat :: start <= i ==> !OccursAt(s, part, i)
    decreases |s| - start
  {
    if start + |part| > |s| then None
    else if OccursAt(s, part, start) then Some(start)
    else FindFromIndex(s, part, start + 1)
  }

  /** The text before the first `part` of `s` and after it, as `str::split_once`. */
  function SplitOnce(s: string, part: string): (r: Option<(string, string)>)
    ensures r.Some? ==> s == r.value.0 + part + r.value.1
    ensures r == None <==> !Holds(s, part)
  {
    match Find(s, part)
    case None => None
    case Some(i) => Some((s[..i], s[i + |part|..]))
  }

  /** A part whose first character occurs nowhere else in it: it cannot overlap itself. */
  predicate StartsOnce(part: string) {
    part != "" && part[0] !in part[1..]
  }

  /** Text without such a part, followed by it, is split there. */
  lemma {:induction false} SplitOnceOf(before: string, part: string, after: string)
    requires StartsOnce(part) && !Holds(before, part)
    ensures SplitOnce(before + part + after, part) == Some((before, after))
  {
    var s := before + part + after;
    assert OccursAt(s, part, |before|);
    forall i: nat | i < |before|
      ensures !OccursAt(s, part, i)
    {
      if i + |part| <= |before| {
        assert !OccursAt(before, part, i);
        assert before[i..i + |part|] == s[i..i + |part|];
      } else if i + |part| <= |s| {
        var k := |before| - i;
        assert s[i..i + |part|][k] == part[0];
        assert part[k] == part[1..][k - 1];
      }
    }
    var found := Find(s, part).value;
    assert found == |before|;
    assert s[..found] == before && s[found + |part|..] == after;
  }

  /** A text holds no part whose first character it lacks. */
  lemma HoldsNothing(s: string, part: string)
    requires part != "" && part[0] !in s
    ensures !Holds(s, part)
  {
    forall i: nat
      ensures !OccursAt(s, part, i)
    {
      if i + |part| <= |s| {
        assert s[i..i + |part|][0] == s[i];
      }
    }
  }
}
