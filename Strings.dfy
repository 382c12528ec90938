/** JavaScript's `String.prototype.split` with a non-empty string separator,
    its inverse `join`, and the CRLF-terminated form of a list of lines. */
module Strings {

  /** `sep` occurs in `s` starting at index `i`. */
  predicate OccursAt(s: string, sep: string, i: int)
  {
    0 <= i && i + |sep| <= |s| && s[i..i + |sep|] == sep
  }

  ghost predicate Contains(s: string, sep: string)
  {
    exists i :: OccursAt(s, sep, i)
  }

  /** `s.split(sep)`: the pieces between the leftmost non-overlapping occurrences
      of `sep`; always at least one piece (`"".split(sep) == [""]`). */
  function Split(s: string, sep: string): (parts: seq<string>)
    requires |sep| > 0
    ensures |parts| >= 1
    decreases |s|
  {
    if |s| < |sep| then [s]
    else if s[..|sep|] == sep then [""] + Split(s[|sep|..], sep)
    else
      var rest := Split(s[1..], sep);
      [[s[0]] + rest[0]] + rest[1..]
  }

  /** `parts.join(sep)`. */
  function Join(parts: seq<string>, sep: string): string
  {
    if |parts| == 0 then ""
    else if |parts| == 1 then parts[0]
    else parts[0] + sep + Join(parts[1..], sep)
  }

  /** Each line followed by `sep`, concatenated: what `lines.map(l => l + sep).join("")` gives. */
  function Terminated(lines: seq<string>, sep: string): string
  {
    if lines == [] then "" else Terminated(lines[..|lines| - 1], sep) + lines[|lines| - 1] + sep
  }

  lemma JoinCons(p: string, rest: seq<string>, sep: string)
    ensures Join([p] + rest, sep) == if rest == [] then p else p + sep + Join(rest, sep)
  {
    assert ([p] + rest)[1..] == rest;
  }

  /** The two ways `Split` continues on an input at least as long as the separator. */
  lemma SplitAtSeparator(s: string, sep: string)
    requires 0 < |sep| <= |s| && s[..|sep|] == sep
    ensures Split(s, sep) == [""] + Split(s[|sep|..], sep)
  {
  }

  lemma SplitAtOther(s: string, sep: string)
    requires 0 < |sep| <= |s| && s[..|sep|] != sep
    ensures var rest := Split(s[1..], sep);
      Split(s, sep) == [[s[0]] + rest[0]] + rest[1..]
  {
  }

  /** Splitting loses nothing: joining the pieces again gives back the input. */
  lemma {:induction false} JoinSplit(s: string, sep: string)
    requires |sep| > 0
    ensures Join(Split(s, sep), sep) == s
    decreases |s|
  {
    if |s| < |sep| {
    } else if s[..|sep|] == sep {
      JoinSplit(s[|sep|..], sep);
      JoinSplitAtSeparator(s, sep);
    } else {
      JoinSplit(s[1..], sep);
      JoinSplitAtOther(s, sep);
    }
  }

  lemma JoinSplitAtSeparator(s: string, sep: string)
    requires 0 < |sep| <= |s| && s[..|sep|] == sep
    requires Join(Split(s[|sep|..], sep), sep) == s[|sep|..]
    ensures Join(Split(s, sep), sep) == s
  {
    SplitAtSeparator(s, sep);
    JoinEmptyFirst(Split(s[|sep|..], sep), sep, s[|sep|..]);
    assert s == s[..|sep|] + s[|sep|..];
  }

  /** An empty first piece puts a separator in front of the join. */
  lemma JoinEmptyFirst(parts: seq<string>, sep: string, t: string)
    requires |parts| >= 1 && Join(parts, sep) == t
    ensures Join([""] + parts, sep) == sep + t
  {
    JoinCons("", parts, sep);
    assert "" + sep == sep;
  }

  lemma JoinSplitAtOther(s: string, sep: string)
    requires 0 < |sep| <= |s| && s[..|sep|] != sep
    requires Join(Split(s[1..], sep), sep) == s[1..]
    ensures Join(Split(s, sep), sep) == s
  {
    SplitAtOther(s, sep);
    JoinGrowFirst(s[0], Split(s[1..], sep), sep);
    assert s == [s[0]] + s[1..];
  }

  /** Putting a character in front of the first piece puts it in front of the join. */
  lemma JoinGrowFirst(c: char, parts: seq<string>, sep: string)
    requires |parts| >= 1
    ensures Join([[c] + parts[0]] + parts[1..], sep) == [c] + Join(parts, sep)
  {
    var tail := parts[1..];
    assert parts == [parts[0]] + tail;
    JoinCons(parts[0], tail, sep);
    JoinCons([c] + parts[0], tail, sep);
    if tail != [] {
      assert [c] + parts[0] + sep + Join(tail, sep) == [c] + (parts[0] + sep + Join(tail, sep));
    }
  }

  lemma JoinPrefix(parts: seq<string>, sep: string)
    requires |parts| >= 1
    ensures parts[0] <= Join(parts, sep)
  {
  }

  /** A string shorter than the separator cannot hold it. */
  lemma ShortAvoids(t: string, sep: string)
    requires |t| < |sep|
    ensures !Contains(t, sep)
  {
    forall i | OccursAt(t, sep, i) ensures false {
    }
  }

  /** A character in front of a string without `sep` adds no occurrence unless one
      starts at that character. */
  lemma ConsAvoids(c: char, t: string, sep: string)
    requires !Contains(t, sep) && !OccursAt([c] + t, sep, 0)
    ensures !Contains([c] + t, sep)
  {
    var u := [c] + t;
    forall i ensures !OccursAt(u, sep, i) {
      if 0 < i && i + |sep| <= |u| {
        assert u[i..i + |sep|] == t[i - 1..i - 1 + |sep|];
        assert !OccursAt(t, sep, i - 1);
      }
    }
  }

  /** No piece contains the separator. */
  lemma {:induction false} SplitPiecesAvoidSeparator(s: string, sep: string)
    requires |sep| > 0
    ensures forall k :: 0 <= k < |Split(s, sep)| ==> !Contains(Split(s, sep)[k], sep)
    decreases |s|
  {
    var parts := Split(s, sep);
    if |s| < |sep| {
      assert parts == [s];
      ShortAvoids(s, sep);
    } else if s[..|sep|] == sep {
      SplitPiecesAvoidSeparator(s[|sep|..], sep);
      var rest := Split(s[|sep|..], sep);
      SplitAtSeparator(s, sep);
      ShortAvoids("", sep);
      forall k | 0 <= k < |parts| ensures !Contains(parts[k], sep) {
        if k > 0 {
          assert parts[k] == rest[k - 1];
        }
      }
    } else {
      SplitPiecesAvoidSeparator(s[1..], sep);
      var rest := Split(s[1..], sep);
      SplitAtOther(s, sep);
      JoinSplit(s[1..], sep);
      JoinPrefix(rest, sep);
      var first := [s[0]] + rest[0];
      assert first <= s;
      ConsAvoids(s[0], rest[0], sep);
      forall k | 0 <= k < |parts| ensures !Contains(parts[k], sep) {
        if k > 0 {
          assert parts[k] == rest[k];
        }
      }
    }
  }

  /** Joining is the same as terminating every piece but the last and appending the last. */
  lemma {:induction false} JoinAsTerminated(parts: seq<string>, sep: string)
    requires |parts| >= 1
    ensures Join(parts, sep) == Terminated(parts[..|parts| - 1], sep) + parts[|parts| - 1]
  {
    if |parts| == 1 {
      assert parts[..0] == [];
    } else {
      JoinAsTerminated(parts[1..], sep);
      var init := parts[..|parts| - 1];
      TerminatedCons(parts[0], parts[1..|parts| - 1], sep);
      assert [parts[0]] + parts[1..|parts| - 1] == init;
      assert parts[1..][..|parts[1..]| - 1] == parts[1..|parts| - 1];
    }
  }

  lemma {:induction false} TerminatedCons(p: string, rest: seq<string>, sep: string)
    ensures Terminated([p] + rest, sep) == p + sep + Terminated(rest, sep)
    decreases |rest|
  {
    if rest == [] {
      assert ([p] + rest)[..0] == [];
    } else {
      var all := [p] + rest;
      assert all[..|all| - 1] == [p] + rest[..|rest| - 1];
      TerminatedCons(p, rest[..|rest| - 1], sep);
    }
  }

  lemma TerminatedAppend(lines: seq<string>, extra: seq<string>, sep: string)
    ensures Terminated(lines + extra, sep) == Terminated(lines, sep) + Terminated(extra, sep)
    decreases |extra|
  {
    if extra == [] {
      assert lines + extra == lines;
    } else {
      var all := lines + extra;
      assert all[..|all| - 1] == lines + extra[..|extra| - 1];
      TerminatedAppend(lines, extra[..|extra| - 1], sep);
    }
  }

  /** Splitting frames the input: the complete pieces, each terminated, followed by
      the unterminated last piece, give back the input, and that last piece holds
      no separator. */
  lemma Framing(s: string, sep: string)
    requires |sep| > 0
    ensures var parts := Split(s, sep);
      && Terminated(parts[..|parts| - 1], sep) + parts[|parts| - 1] == s
      && !Contains(parts[|parts| - 1], sep)
  {
    JoinSplit(s, sep);
    JoinAsTerminated(Split(s, sep), sep);
    SplitPiecesAvoidSeparator(s, sep);
  }
}
