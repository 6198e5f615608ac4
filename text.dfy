/**
 * Splitting of an address list on a separator character, as the drivers do it:
 * the C++ character loop and Rust's `str::split` keep every segment (empty ones too),
 * Java's `String.split` drops trailing empty segments.
 */
module Text {

  /** Number of occurrences of `c` in `s`. */
  function Count(s: string, c: char): nat {
    if |s| == 0 then 0
    else Count(s[..|s| - 1], c) + (if s[|s| - 1] == c then 1 else 0)
  }

  /**
   * All segments of `s` between occurrences of `sep`, empty ones included. Defined
   * character by character from the left: a separator opens a new empty segment,
   * any other character is appended to the last segment.
   */
  function Split(s: string, sep: char): (parts: seq<string>)
    ensures |parts| == Count(s, sep) + 1
    ensures forall i :: 0 <= i < |parts| ==> sep !in parts[i]
  {
    if |s| == 0 then [""]
    else
      var init := Split(s[..|s| - 1], sep);
      var c := s[|s| - 1];
      if c == sep then init + [""]
      else init[..|init| - 1] + [init[|init| - 1] + [c]]
  }

  /** The segments glued back together with `sep` between consecutive ones. */
  function Join(parts: seq<string>, sep: char): string {
    if |parts| == 0 then ""
    else if |parts| == 1 then parts[0]
    else Join(parts[..|parts| - 1], sep) + [sep] + parts[|parts| - 1]
  }

  /** Joining the segments reproduces the input: nothing is lost or reordered by Split. */
  lemma {:induction false} JoinSplit(s: string, sep: char)
    ensures Join(Split(s, sep), sep) == s
  {
    if |s| > 0 {
      var pre := s[..|s| - 1];
      var c := s[|s| - 1];
      assert s == pre + [c];
      var init := Split(pre, sep);
      JoinSplit(pre, sep);
      SplitSnoc(pre, c, sep);
      if c == sep {
        JoinSnoc(init, "", sep);
      } else {
        JoinExtendLast(init, c, sep);
      }
    }
  }

  /** Appending a character to the last segment appends it to the join. */
  lemma JoinExtendLast(parts: seq<string>, c: char, sep: char)
    requires |parts| >= 1
    ensures Join(parts[..|parts| - 1] + [parts[|parts| - 1] + [c]], sep) == Join(parts, sep) + [c]
  {
    var ext := parts[..|parts| - 1] + [parts[|parts| - 1] + [c]];
    assert ext[..|ext| - 1] == parts[..|parts| - 1];
    if |parts| > 1 {
      assert Join(ext, sep) == Join(parts[..|parts| - 1], sep) + [sep] + (parts[|parts| - 1] + [c]);
    }
  }

  /** Appending one more segment to a join. */
  lemma JoinSnoc(parts: seq<string>, p: string, sep: char)
    requires |parts| >= 1
    ensures Join(parts + [p], sep) == Join(parts, sep) + [sep] + p
  {
    assert (parts + [p])[..|parts|] == parts;
  }

  /** Split undoes Join whenever no segment contains the separator. */
  lemma {:induction false} SplitJoin(parts: seq<string>, sep: char)
    requires |parts| >= 1
    requires forall i :: 0 <= i < |parts| ==> sep !in parts[i]
    ensures Split(Join(parts, sep), sep) == parts
  {
    if |parts| == 1 {
      SplitSegment(parts[0], sep);
    } else {
      var init := parts[..|parts| - 1];
      var last := parts[|parts| - 1];
      SplitJoin(init, sep);
      SplitAppendSegment(Join(init, sep), last, sep);
      assert init + [last] == parts;
    }
  }

  /** A string with no separator is a single segment. */
  lemma {:induction false} SplitSegment(p: string, sep: char)
    requires sep !in p
    ensures Split(p, sep) == [p]
  {
    if |p| > 0 {
      var pre := p[..|p| - 1];
      assert sep !in pre by {
        forall i | 0 <= i < |pre| ensures pre[i] != sep { assert pre[i] == p[i]; }
      }
      SplitSegment(pre, sep);
      assert pre + [p[|p| - 1]] == p;
    }
  }

  /** One more character: a separator opens a new segment, anything else extends the last one. */
  lemma SplitSnoc(s: string, c: char, sep: char)
    ensures c == sep ==> Split(s + [c], sep) == Split(s, sep) + [""]
    ensures c != sep ==> var init := Split(s, sep);
      Split(s + [c], sep) == init[..|init| - 1] + [init[|init| - 1] + [c]]
  {
    assert (s + [c])[..|s|] == s;
  }

  /** Splitting `s + [sep] + p` adds exactly the segment `p` when `p` has no separator. */
  lemma {:induction false} SplitAppendSegment(s: string, p: string, sep: char)
    requires sep !in p
    ensures Split(s + [sep] + p, sep) == Split(s, sep) + [p]
  {
    if |p| == 0 {
      SplitSnoc(s, sep, sep);
      assert s + [sep] + p == s + [sep];
    } else {
      var pre := p[..|p| - 1];
      var c := p[|p| - 1];
      assert p == pre + [c];
      assert s + [sep] + p == (s + [sep] + pre) + [c];
      assert sep !in pre by {
        forall i | 0 <= i < |pre| ensures pre[i] != sep { assert pre[i] == p[i]; }
      }
      SplitAppendSegment(s, pre, sep);
      SplitSnoc(s + [sep] + pre, c, sep);
      var init := Split(s, sep) + [pre];
      assert init[..|init| - 1] == Split(s, sep);
    }
  }

  /** Removes every empty segment at the end of the list. */
  function DropTrailingEmpty(parts: seq<string>): (r: seq<string>)
    ensures |r| <= |parts| && r == parts[..|r|]
    ensures |r| > 0 ==> r[|r| - 1] != ""
    ensures forall i :: |r| <= i < |parts| ==> parts[i] == ""
  {
    if |parts| > 0 && parts[|parts| - 1] == "" then DropTrailingEmpty(parts[..|parts| - 1])
    else parts
  }

  /**
   * Java's `String.split` with a one-character separator and no limit: when the
   * separator does not occur the result is the input itself; otherwise it is the full
   * split with all trailing empty segments removed.
   */
  function JavaSplit(s: string, sep: char): (parts: seq<string>)
  {
    if sep !in s then [s] else DropTrailingEmpty(Split(s, sep))
  }

  /** Count is zero exactly when the character does not occur. */
  lemma {:induction false} CountZero(s: string, c: char)
    ensures Count(s, c) == 0 <==> c !in s
  {
    if |s| > 0 {
      CountZero(s[..|s| - 1], c);
      assert s == s[..|s| - 1] + [s[|s| - 1]];
    }
  }

  /**
   * Java's split keeps a prefix of the full split, drops only empty segments, and
   * keeps everything up to the last non-empty segment.
   */
  lemma JavaSplitIsTrimmedSplit(s: string, sep: char)
    requires sep in s
    ensures var full := Split(s, sep); var j := JavaSplit(s, sep);
      j == full[..|j|] && (forall i :: |j| <= i < |full| ==> full[i] == "") &&
      (|j| > 0 ==> j[|j| - 1] != "")
  {
  }
}
