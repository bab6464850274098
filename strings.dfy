// Go's `strings.Join` and `strings.Split` with a one-character separator, as the code generator
// uses them.

module Strings {
  /** `strings.Join(parts, sep)`: the parts with `sep` between neighbours; no parts give "". */
  function Join(parts: seq<string>, sep: string): string
    decreases |parts|
  {
    if parts == [] then ""
    else if |parts| == 1 then parts[0]
    else parts[0] + sep + Join(parts[1..], sep)
  }

  /** `strings.Split(s, [c])`: the maximal runs between occurrences of `c`; always at least one
      part, so "" splits into [""]. */
  function Split(s: string, c: char): (r: seq<string>)
    ensures |r| >= 1
    decreases |s|
  {
    if s == [] then [""]
    else
      var rest := Split(s[1..], c);
      if s[0] == c then [""] + rest else [[s[0]] + rest[0]] + rest[1..]
  }

  predicate NoneContain(parts: seq<string>, c: char) {
    forall i :: 0 <= i < |parts| ==> c !in parts[i]
  }

  /** No part of a split holds the separator. */
  lemma {:induction false} SplitFree(s: string, c: char)
    ensures NoneContain(Split(s, c), c)
    decreases |s|
  {
    if s != [] {
      var rest := Split(s[1..], c);
      SplitFree(s[1..], c);
      var r := Split(s, c);
      if s[0] == c {
        assert r == [""] + rest;
        forall i | 0 <= i < |r|
          ensures c !in r[i]
        {
          if i > 0 {
            assert r[i] == rest[i - 1];
          }
        }
      } else {
        assert r == [[s[0]] + rest[0]] + rest[1..];
        forall i | 0 <= i < |r|
          ensures c !in r[i]
        {
          if i > 0 {
            assert r[i] == rest[i];
          }
        }
      }
    }
  }

  /** Splitting gives parts free of the separator that join back to the input. */
  lemma {:induction false} SplitJoin(s: string, c: char)
    ensures NoneContain(Split(s, c), c)
    ensures Join(Split(s, c), [c]) == s
    decreases |s|
  {
    SplitFree(s, c);
    if s != [] {
      var rest := Split(s[1..], c);
      SplitJoin(s[1..], c);
      if s[0] == c {
        assert Split(s, c) == [""] + rest;
        assert ([""] + rest)[1..] == rest;
      } else {
        var r := Split(s, c);
        assert r[0] == [s[0]] + rest[0];
        if |rest| == 1 {
          assert r == [[s[0]] + rest[0]];
        } else {
          assert r[1..] == rest[1..];
          assert Join(rest, [c]) == rest[0] + [c] + Join(rest[1..], [c]);
        }
      }
    }
  }

  /** Joining parts free of the separator and splitting again gives the parts back. */
  lemma {:induction false} JoinSplit(parts: seq<string>, c: char)
    requires |parts| >= 1 && NoneContain(parts, c)
    ensures Split(Join(parts, [c]), c) == parts
    decreases |parts|, |parts[0]|
  {
    var p := parts[0];
    if p == [] {
      if |parts| > 1 {
        JoinSplit(parts[1..], c);
        assert Join(parts, [c]) == [c] + Join(parts[1..], [c]);
        assert ([c] + Join(parts[1..], [c]))[1..] == Join(parts[1..], [c]);
      }
    } else {
      var shorter := [p[1..]] + parts[1..];
      assert p[1..] == shorter[0];
      assert shorter[1..] == parts[1..];
      JoinSplit(shorter, c);
      if |parts| == 1 {
        assert Join(parts, [c]) == p;
        assert Join(shorter, [c]) == p[1..];
      } else {
        assert Join(parts, [c]) == p + [c] + Join(parts[1..], [c]);
        assert Join(shorter, [c]) == p[1..] + [c] + Join(parts[1..], [c]);
        assert (p + [c] + Join(parts[1..], [c]))[1..] == p[1..] + [c] + Join(parts[1..], [c]);
      }
      assert [p[0]] + p[1..] == p;
    }
  }

  /** The length of a join: the parts plus one separator between each pair. */
  lemma {:induction false} JoinLength(parts: seq<string>, sep: string)
    requires parts != []
    ensures |Join(parts, sep)| == TotalLength(parts) + (|parts| - 1) * |sep|
    decreases |parts|
  {
    if |parts| > 1 {
      JoinLength(parts[1..], sep);
    }
  }

  function TotalLength(parts: seq<string>): nat
    decreases |parts|
  {
    if parts == [] then 0 else |parts[0]| + TotalLength(parts[1..])
  }

  /** Joining one part more at the end. */
  lemma {:induction false} JoinSnoc(parts: seq<string>, p: string, sep: string)
    requires parts != []
    ensures Join(parts + [p], sep) == Join(parts, sep) + sep + p
    decreases |parts|
  {
    if |parts| == 1 {
      assert parts + [p] == [parts[0], p];
    } else {
      assert (parts + [p])[1..] == parts[1..] + [p];
      JoinSnoc(parts[1..], p, sep);
    }
  }

  /** Every character of a join comes from a part or from the separator. */
  lemma {:induction false} JoinChars(parts: seq<string>, sep: string, P: char -> bool)
    requires forall i, j :: 0 <= i < |parts| && 0 <= j < |parts[i]| ==> P(parts[i][j])
    requires forall j :: 0 <= j < |sep| ==> P(sep[j])
    ensures forall j :: 0 <= j < |Join(parts, sep)| ==> P(Join(parts, sep)[j])
    decreases |parts|
  {
    if |parts| > 1 {
      JoinChars(parts[1..], sep, P);
      var rest := Join(parts[1..], sep);
      forall j | 0 <= j < |Join(parts, sep)|
        ensures P(Join(parts, sep)[j])
      {
        if j < |parts[0]| {
          assert Join(parts, sep)[j] == parts[0][j];
        } else if j < |parts[0]| + |sep| {
          assert Join(parts, sep)[j] == sep[j - |parts[0]|];
        } else {
          assert Join(parts, sep)[j] == rest[j - |parts[0]| - |sep|];
        }
      }
    }
  }
}
