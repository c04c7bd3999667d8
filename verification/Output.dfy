/** Captured command output and how the runner stores it (truncate). Characters are bytes. */
module Output {
  import opened Strings

  const MAX_STORED: nat := 64 * 1024
  const MARKER: string := "[...truncated]\n"

  // ---------- the capture buffer ----------

  /** What `emit` leaves in the buffer after writing these lines, each followed by a newline. */
  function Emitted(lines: seq<string>): string
  {
    if lines == [] then "" else lines[0] + [NL] + Emitted(lines[1..])
  }

  lemma {:induction false} EmittedAppend(lines: seq<string>, line: string)
    ensures Emitted(lines + [line]) == Emitted(lines) + line + [NL]
  {
    if lines == [] {
      assert lines + [line] == [line];
    } else {
      EmittedAppend(lines[1..], line);
      assert (lines + [line])[1..] == lines[1..] + [line];
    }
  }

  /** `m` interleaves `a` and `b`, keeping the order of each. */
  ghost predicate IsMerge(m: seq<string>, a: seq<string>, b: seq<string>)
    decreases |m|
  {
    if m == [] then a == [] && b == []
    else
      var n := |m| - 1;
      || (a != [] && a[|a| - 1] == m[n] && IsMerge(m[..n], a[..|a| - 1], b))
      || (b != [] && b[|b| - 1] == m[n] && IsMerge(m[..n], a, b[..|b| - 1]))
  }

  /** Every line of either stream is in the merge, and nothing else is. */
  lemma {:induction false} MergeConserves(m: seq<string>, a: seq<string>, b: seq<string>)
    requires IsMerge(m, a, b)
    ensures multiset(m) == multiset(a) + multiset(b)
    ensures |m| == |a| + |b|
    decreases |m|
  {
    if m != [] {
      var n := |m| - 1;
      assert m == m[..n] + [m[n]];
      if a != [] && a[|a| - 1] == m[n] && IsMerge(m[..n], a[..|a| - 1], b) {
        MergeConserves(m[..n], a[..|a| - 1], b);
        assert a == a[..|a| - 1] + [m[n]];
      } else {
        MergeConserves(m[..n], a, b[..|b| - 1]);
        assert b == b[..|b| - 1] + [m[n]];
      }
    }
  }

  /** The lines of `a` are in `m` at these places, in the same order. */
  ghost predicate AreAt(m: seq<string>, a: seq<string>, places: seq<nat>)
  {
    && |places| == |a|
    && (forall i :: 0 <= i < |a| ==> places[i] < |m| && m[places[i]] == a[i])
    && (forall i, j :: 0 <= i < j < |a| ==> places[i] < places[j])
  }

  /** Each stream keeps its order in the merge, and every place belongs to one of the two. */
  lemma {:induction false} MergeKeepsOrder(m: seq<string>, a: seq<string>, b: seq<string>)
    returns (ofA: seq<nat>, ofB: seq<nat>)
    requires IsMerge(m, a, b)
    ensures AreAt(m, a, ofA) && AreAt(m, b, ofB)
    ensures forall k: nat :: k < |m| ==> (k in ofA <==> k !in ofB)
    decreases |m|
  {
    if m == [] {
      ofA, ofB := [], [];
    } else {
      var n := |m| - 1;
      if a != [] && a[|a| - 1] == m[n] && IsMerge(m[..n], a[..|a| - 1], b) {
        ofA, ofB := MergeKeepsOrder(m[..n], a[..|a| - 1], b);
        ofA := ofA + [n];
      } else {
        ofA, ofB := MergeKeepsOrder(m[..n], a, b[..|b| - 1]);
        ofB := ofB + [n];
      }
    }
  }

  lemma MergeExtend(m: seq<string>, a: seq<string>, b: seq<string>, line: string)
    requires IsMerge(m, a, b)
    ensures IsMerge(m + [line], a + [line], b)
    ensures IsMerge(m + [line], a, b + [line])
  {
    assert (m + [line])[..|m|] == m;
    assert (a + [line])[..|a|] == a;
    assert (b + [line])[..|b|] == b;
  }

  // ---------- truncate ----------

  /** The text after the first newline, which ends a line that may have been cut. */
  function DropPartialLine(tail: string): string
  {
    var lines := Split(tail);
    Join(if |lines| > 1 then lines[1..] else lines)
  }

  function Truncate(s: string, maxBytes: nat): string
  {
    if |s| <= maxBytes then s
    else MARKER + DropPartialLine(s[|s| - maxBytes..])
  }

  /** The longest run of final lines that takes fewer than `maxBytes` (see KeptIsLongest). */
  function Kept(lines: seq<string>, maxBytes: nat): seq<string>
  {
    if lines == [] || |Emitted(lines)| < maxBytes then lines else Kept(lines[1..], maxBytes)
  }

  lemma {:induction false} KeptIsLongest(lines: seq<string>, maxBytes: nat)
    requires maxBytes > 0
    ensures var n := |Kept(lines, maxBytes)|;
      && n <= |lines|
      && Kept(lines, maxBytes) == lines[|lines| - n..]
      && |Emitted(Kept(lines, maxBytes))| < maxBytes
      && (n < |lines| ==> |Emitted(lines[|lines| - n - 1..])| >= maxBytes)
  {
    if lines != [] && |Emitted(lines)| >= maxBytes {
      var rest := lines[1..];
      KeptIsLongest(rest, maxBytes);
      var n := |Kept(rest, maxBytes)|;
      assert rest[|rest| - n..] == lines[|lines| - n..];
      if n < |rest| {
        assert rest[|rest| - n - 1..] == lines[|lines| - n - 1..];
      } else {
        assert lines[0..] == lines;
      }
    }
  }

  lemma DropPartialOfLine(cut: string, rest: string)
    requires NL !in cut
    ensures DropPartialLine(cut + [NL] + rest) == rest
  {
    SplitAtNewline(cut, rest);
    SplitOfLine(cut);
    JoinOfSplit(rest);
    assert ([cut] + Split(rest))[1..] == Split(rest);
  }

  /** For any text: what is cut off goes up to the first newline of the tail, if that has one. */
  lemma TruncatedText(s: string, maxBytes: nat)
    requires |s| > maxBytes
    ensures NL !in s[|s| - maxBytes..] ==> Truncate(s, maxBytes) == "[...truncated]\n" + s[|s| - maxBytes..]
    ensures forall cut, rest :: NL !in cut && s[|s| - maxBytes..] == cut + [NL] + rest ==>
      Truncate(s, maxBytes) == "[...truncated]\n" + rest
  {
    var tail := s[|s| - maxBytes..];
    if NL !in tail {
      SplitOfLine(tail);
    }
    forall cut, rest | NL !in cut && tail == cut + [NL] + rest ensures DropPartialLine(tail) == rest {
      DropPartialOfLine(cut, rest);
    }
  }

  /** When the cut falls into the first line, everything after that line is kept. */
  lemma CutInFirstLine(line: string, rest: string, maxBytes: nat)
    requires NL !in line && |rest| < maxBytes <= |line| + 1 + |rest|
    ensures var s := line + [NL] + rest; DropPartialLine(s[|s| - maxBytes..]) == rest
  {
    var s := line + [NL] + rest;
    var cut := line[|s| - maxBytes..];
    assert s[|s| - maxBytes..] == cut + [NL] + rest;
    DropPartialOfLine(cut, rest);
  }

  lemma CutAfterFirstLine(line: string, rest: string, maxBytes: nat)
    requires maxBytes <= |rest|
    ensures var s := line + [NL] + rest; s[|s| - maxBytes..] == rest[|rest| - maxBytes..]
  {
  }

  lemma {:induction false} TailDropsToKept(lines: seq<string>, maxBytes: nat)
    requires NewlineFree(lines)
    requires 0 < maxBytes <= |Emitted(lines)|
    ensures var s := Emitted(lines); DropPartialLine(s[|s| - maxBytes..]) == Emitted(Kept(lines, maxBytes))
  {
    var rest := Emitted(lines[1..]);
    if |rest| >= maxBytes {
      CutAfterFirstLine(lines[0], rest, maxBytes);
      TailDropsToKept(lines[1..], maxBytes);
    } else {
      CutInFirstLine(lines[0], rest, maxBytes);
    }
  }

  /**
   * `stored` is what is kept of a run that emitted `lines`: everything when it fits, and otherwise
   * the marker followed by the longest run of whole final lines that takes fewer than `maxBytes`.
   */
  ghost predicate IsStored(lines: seq<string>, maxBytes: nat, stored: string)
  {
    if |Emitted(lines)| <= maxBytes then stored == Emitted(lines)
    else stored == "[...truncated]\n" + Emitted(Kept(lines, maxBytes))
  }

  lemma StoredOutput(lines: seq<string>, maxBytes: nat)
    requires NewlineFree(lines) && maxBytes > 0
    ensures IsStored(lines, maxBytes, Truncate(Emitted(lines), maxBytes))
  {
    if |Emitted(lines)| > maxBytes {
      TailDropsToKept(lines, maxBytes);
    }
  }

  lemma StoredSize(lines: seq<string>, maxBytes: nat, stored: string)
    requires maxBytes > 0 && IsStored(lines, maxBytes, stored)
    ensures |stored| < maxBytes + 15
  {
    KeptIsLongest(lines, maxBytes);
  }

  /**
   * The cap is on the kept tail only and the marker comes on top of it: what is stored is larger than
   * the cap exactly if something was cut and the kept lines leave less room than the marker needs.
   */
  lemma StoredOutputExceedsTheCapIff(lines: seq<string>, maxBytes: nat)
    requires NewlineFree(lines) && maxBytes > 0
    ensures |Truncate(Emitted(lines), maxBytes)| > maxBytes <==>
      |Emitted(lines)| > maxBytes && |Emitted(Kept(lines, maxBytes))| + 15 > maxBytes
  {
    StoredOutput(lines, maxBytes);
  }

  /** Such output exists for every cap. */
  lemma StoredOutputCanExceedTheCap(maxBytes: nat)
    requires maxBytes > 2
    ensures exists lines :: NewlineFree(lines) && |Truncate(Emitted(lines), maxBytes)| > maxBytes
  {
    var long := seq(maxBytes - 2, i => 'x');
    var lines := ["y", long];
    assert lines[1..] == [long];
    assert Emitted(lines) == "y" + [NL] + Emitted([long]);
    assert [long][1..] == [];
    assert Emitted([long]) == long + [NL] + Emitted([]);
    assert Kept(lines, maxBytes) == [long];
    StoredOutput(lines, maxBytes);
  }
}
