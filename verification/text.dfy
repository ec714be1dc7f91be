/**
 * String helpers behind `toLowerCase`, `toUpperCase`, `includes`,
 * `startsWith` and `split` as the dashboard uses them. Case mapping covers
 * ASCII letters and the accented letters of Spanish; every other character
 * maps to itself.
 */
module Text {
  import opened Seqs

  function Lower(c: char): char
  {
    if 'A' <= c <= 'Z' then (c as int + 32) as char
    else if c == 'Á' then 'á'
    else if c == 'É' then 'é'
    else if c == 'Í' then 'í'
    else if c == 'Ó' then 'ó'
    else if c == 'Ú' then 'ú'
    else if c == 'Ü' then 'ü'
    else if c == 'Ñ' then 'ñ'
    else c
  }

  function Upper(c: char): char
  {
    if 'a' <= c <= 'z' then (c as int - 32) as char
    else if c == 'á' then 'Á'
    else if c == 'é' then 'É'
    else if c == 'í' then 'Í'
    else if c == 'ó' then 'Ó'
    else if c == 'ú' then 'Ú'
    else if c == 'ü' then 'Ü'
    else if c == 'ñ' then 'Ñ'
    else c
  }

  /** `s.toLowerCase()`. */
  function LowerStr(s: string): (r: string)
    ensures |r| == |s|
    ensures forall i :: 0 <= i < |s| ==> r[i] == Lower(s[i])
  {
    seq(|s|, i requires 0 <= i < |s| => Lower(s[i]))
  }

  /** `s.toUpperCase()`. */
  function UpperStr(s: string): (r: string)
    ensures |r| == |s|
    ensures forall i :: 0 <= i < |s| ==> r[i] == Upper(s[i])
  {
    seq(|s|, i requires 0 <= i < |s| => Upper(s[i]))
  }

  /** Lowercasing twice is lowercasing once. */
  lemma LowerStrIdempotent(s: string)
    ensures LowerStr(LowerStr(s)) == LowerStr(s)
  {
    assert forall i :: 0 <= i < |s| ==> Lower(Lower(s[i])) == Lower(s[i]);
  }

  /** `s.charAt(0).toUpperCase() + s.slice(1)`. */
  function Capitalize(s: string): (r: string)
    ensures |r| == |s|
    ensures |s| > 0 ==> r[0] == Upper(s[0]) && r[1..] == s[1..]
  {
    if |s| == 0 then "" else [Upper(s[0])] + s[1..]
  }

  predicate OccursAt(hay: string, needle: string, i: int)
  {
    0 <= i && i + |needle| <= |hay| && hay[i..i + |needle|] == needle
  }

  /** `hay.includes(needle)`. */
  predicate Contains(hay: string, needle: string)
  {
    exists i :: 0 <= i <= |hay| - |needle| && OccursAt(hay, needle, i)
  }

  /** Every string includes the empty string. */
  lemma ContainsEmpty(hay: string)
    ensures Contains(hay, "")
  {
    assert OccursAt(hay, "", 0);
  }

  /** `s.startsWith(prefix)`. */
  predicate StartsWith(s: string, prefix: string)
  {
    |prefix| <= |s| && s[..|prefix|] == prefix
  }

  /** `s.split(sep)` for a one-character separator. */
  function Split(s: string, sep: char): (parts: seq<string>)
    ensures |parts| >= 1
    ensures forall i :: 0 <= i < |parts| ==> sep !in parts[i]
  {
    if |s| == 0 then [""]
    else
      var rest := Split(s[1..], sep);
      if s[0] == sep then [""] + rest
      else [[s[0]] + rest[0]] + rest[1..]
  }

  /** `parts.join(sep)` for a one-character separator. */
  function Join(parts: seq<string>, sep: char): string
    requires |parts| >= 1
  {
    if |parts| == 1 then parts[0] else parts[0] + [sep] + Join(parts[1..], sep)
  }

  /** A string without the separator splits into itself alone. */
  lemma {:induction false} SplitWithoutSeparator(s: string, sep: char)
    requires sep !in s
    ensures Split(s, sep) == [s]
  {
    if |s| > 0 {
      SplitWithoutSeparator(s[1..], sep);
      assert [s[0]] + s[1..] == s;
    }
  }

  /** Splitting at the first separator: the part before it comes first. */
  lemma {:induction false} SplitAtFirst(s: string, sep: char, rest: string)
    requires sep !in s
    ensures Split(s + [sep] + rest, sep)[0] == s
    ensures Split(s + [sep] + rest, sep)[1..] == Split(rest, sep)
  {
    if |s| == 0 {
      assert s + [sep] + rest == [sep] + rest;
      assert ([sep] + rest)[1..] == rest;
    } else {
      SplitAtFirst(s[1..], sep, rest);
      assert (s + [sep] + rest)[1..] == s[1..] + [sep] + rest;
      assert [s[0]] + s[1..] == s;
    }
  }

  /** Splitting and joining on the same separator gives back the string. */
  lemma {:induction false} JoinSplit(s: string, sep: char)
    ensures Join(Split(s, sep), sep) == s
  {
    if |s| > 0 {
      var rest := Split(s[1..], sep);
      JoinSplit(s[1..], sep);
      if s[0] == sep {
        assert ([""] + rest)[1..] == rest;
      } else {
        var parts := [[s[0]] + rest[0]] + rest[1..];
        if |rest| == 1 {
          assert parts == [[s[0]] + rest[0]];
        } else {
          assert parts[1..] == rest[1..];
          assert Join(rest, sep) == rest[0] + [sep] + Join(rest[1..], sep);
        }
      }
      assert s == [s[0]] + s[1..];
    }
  }

  /** Joining parts free of the separator and splitting again gives back the parts. */
  lemma {:induction false} SplitJoin(parts: seq<string>, sep: char)
    requires |parts| >= 1
    requires forall i :: 0 <= i < |parts| ==> sep !in parts[i]
    ensures Split(Join(parts, sep), sep) == parts
    decreases |parts|, |parts[0]|
  {
    var p := parts[0];
    if |p| == 0 {
      if |parts| > 1 {
        SplitJoin(parts[1..], sep);
        assert Join(parts, sep) == [sep] + Join(parts[1..], sep);
        assert (([sep] + Join(parts[1..], sep)))[1..] == Join(parts[1..], sep);
        assert parts == [""] + parts[1..];
      }
    } else {
      var shorter := [p[1..]] + parts[1..];
      assert shorter[1..] == parts[1..];
      SplitJoin(shorter, sep);
      assert p == [p[0]] + p[1..];
      var j := Join(parts, sep);
      assert j == [p[0]] + Join(shorter, sep);
      assert j[1..] == Join(shorter, sep);
      assert p[0] != sep by { assert p[0] in parts[0]; }
      assert parts == [[p[0]] + p[1..]] + parts[1..];
    }
  }

  /** First character of a word as a string; `""` for an empty word (`word[0]` joined). */
  function Head(w: string): string
  {
    if |w| == 0 then "" else [w[0]]
  }

  /** `parts.map(w => w[0]).join("")`. */
  function Heads(parts: seq<string>): string
  {
    if |parts| == 0 then "" else Head(parts[0]) + Heads(parts[1..])
  }

  /** The non-empty words, in order. */
  function NonEmptyWords(parts: seq<string>): (r: seq<string>)
    ensures forall i :: 0 <= i < |r| ==> |r[i]| > 0
  {
    if |parts| == 0 then []
    else if |parts[0]| == 0 then NonEmptyWords(parts[1..])
    else [parts[0]] + NonEmptyWords(parts[1..])
  }

  /** The joined heads are exactly the first letters of the non-empty words. */
  lemma {:induction false} HeadsAreFirstLetters(parts: seq<string>)
    ensures |Heads(parts)| == |NonEmptyWords(parts)|
    ensures forall i :: 0 <= i < |Heads(parts)| ==> Heads(parts)[i] == NonEmptyWords(parts)[i][0]
  {
    if |parts| > 0 {
      HeadsAreFirstLetters(parts[1..]);
    }
  }

  /**
   * `s.split(sep).map(w => w[0]).join("").toUpperCase().slice(0, 2)`:
   * the upper-cased first letters of the first two non-empty words.
   */
  function Initials(s: string, sep: char): (r: string)
    ensures |r| == Min(2, |NonEmptyWords(Split(s, sep))|)
    ensures forall i :: 0 <= i < |r| ==> r[i] == Upper(NonEmptyWords(Split(s, sep))[i][0])
  {
    var heads := Heads(Split(s, sep));
    HeadsAreFirstLetters(Split(s, sep));
    Take(UpperStr(heads), 2)
  }
}
