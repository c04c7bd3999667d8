/**
 * What the runner reads from a command's output (lastNonEmptyLine). Characters are the code points of
 * well-formed UTF-8.
 */
module VersionText {
  import opened Strings

  /** The last of `lines` that is not blank, trimmed; "" when all are blank. */
  function LastText(lines: seq<string>): string
  {
    if lines == [] then ""
    else
      var t := TrimSpace(lines[|lines| - 1]);
      if t != "" then t else LastText(lines[..|lines| - 1])
  }

  method LastNonEmptyLine(s: string) returns (r: string)
    ensures var t := LastText(Split(s)); r == if t != "" then t else s
  {
    var lines := Split(s);
    var i := |lines| - 1;
    assert lines[..i + 1] == lines;
    while i >= 0
      invariant -1 <= i < |lines|
      invariant LastText(lines[..i + 1]) == LastText(lines)
    {
      var line := TrimSpace(lines[i]);
      assert lines[..i + 1][..i] == lines[..i];
      if line != "" {
        return line;
      }
      i := i - 1;
    }
    return s;
  }

  /** The version a command's output stands for: every caller trims the output first. */
  method VersionFromOutput(out: string) returns (version: string)
    ensures version == LastText(Split(out))
  {
    version := LastNonEmptyLine(TrimSpace(out));
    LastTextIgnoresTrim(out);
    if LastText(Split(out)) == "" {
      BlankTrimsToNothing(TrimSpace(out));
      TrimFacts(out);
    }
  }

  lemma {:induction false} LastTextConcat(a: seq<string>, b: seq<string>)
    ensures LastText(a + b) == if LastText(b) != "" then LastText(b) else LastText(a)
  {
    if b == [] {
      assert a + b == a;
    } else {
      assert (a + b)[..|a + b| - 1] == a + b[..|b| - 1];
      LastTextConcat(a, b[..|b| - 1]);
    }
  }

  /** The text found is line `i`, and every later line is blank. */
  lemma {:induction false} LastTextIsALine(lines: seq<string>) returns (i: nat)
    requires LastText(lines) != ""
    ensures i < |lines| && LastText(lines) == TrimSpace(lines[i])
    ensures forall j :: i < j < |lines| ==> TrimSpace(lines[j]) == ""
  {
    var n := |lines| - 1;
    if TrimSpace(lines[n]) != "" {
      i := n;
    } else {
      i := LastTextIsALine(lines[..n]);
      assert forall j :: 0 <= j < n ==> lines[..n][j] == lines[j];
    }
  }

  /** Nothing is found exactly if every line is blank. */
  lemma {:induction false} NoTextIffAllBlank(lines: seq<string>)
    ensures LastText(lines) == "" <==> forall i :: 0 <= i < |lines| ==> TrimSpace(lines[i]) == ""
  {
    if lines != [] {
      var n := |lines| - 1;
      NoTextIffAllBlank(lines[..n]);
      assert forall j :: 0 <= j < n ==> lines[..n][j] == lines[j];
    }
  }

  lemma SpaceAtEnd(s: string, c: char)
    requires IsSpace(c)
    ensures LastText(Split(s + [c])) == LastText(Split(s))
  {
    var p := Split(s);
    if c == NL {
      SplitAtNewline(s, "");
      assert s + [NL] + "" == s + [c];
      assert (p + [""])[..|p|] == p;
    } else {
      SplitAppend(s, c);
      var q := PushBack(p, c);
      TrimLeftAppend(p[|p| - 1], c);
      assert q[..|q| - 1] == p[..|p| - 1];
    }
  }

  lemma SpaceAtStart(s: string, c: char)
    requires IsSpace(c)
    ensures LastText(Split([c] + s)) == LastText(Split(s))
  {
    var t, p := [c] + s, Split(s);
    assert t[1..] == s;
    if c == NL {
      LastTextConcat([""], p);
      assert [""][..0] == [];
    } else {
      var q := [[c] + p[0]] + p[1..];
      assert p == [p[0]] + p[1..];
      LastTextConcat([[c] + p[0]], p[1..]);
      LastTextConcat([p[0]], p[1..]);
      assert ([c] + p[0])[1..] == p[0];
    }
  }

  lemma {:induction false} LastTextIgnoresTrimRight(s: string)
    ensures LastText(Split(TrimRight(s))) == LastText(Split(s))
  {
    if s != "" && IsSpace(s[|s| - 1]) {
      LastTextIgnoresTrimRight(s[..|s| - 1]);
      SpaceAtEnd(s[..|s| - 1], s[|s| - 1]);
      assert s[..|s| - 1] + [s[|s| - 1]] == s;
    }
  }

  lemma {:induction false} LastTextIgnoresTrimLeft(s: string)
    ensures LastText(Split(TrimLeft(s))) == LastText(Split(s))
  {
    if s != "" && IsSpace(s[0]) {
      LastTextIgnoresTrimLeft(s[1..]);
      SpaceAtStart(s[1..], s[0]);
      assert [s[0]] + s[1..] == s;
    }
  }

  lemma LastTextIgnoresTrim(s: string)
    ensures LastText(Split(TrimSpace(s))) == LastText(Split(s))
  {
    LastTextIgnoresTrimLeft(s);
    LastTextIgnoresTrimRight(TrimLeft(s));
  }

  /** A text all of whose lines are blank is nothing but white space. */
  lemma {:induction false} BlankTrimsToNothing(s: string)
    requires LastText(Split(s)) == ""
    ensures TrimSpace(s) == ""
  {
    if s != "" {
      assert [s[0]] + s[1..] == s;
      var p := Split(s[1..]);
      if s[0] == NL {
        LastTextConcat([""], p);
        BlankTrimsToNothing(s[1..]);
      } else {
        LastTextConcat([[s[0]] + p[0]], p[1..]);
        assert p == [p[0]] + p[1..];
        assert [[s[0]] + p[0]][..0] == [];
        if !IsSpace(s[0]) {
          TrimKeepsText([s[0]] + p[0]);
          assert false;
        }
        LastTextConcat([p[0]], p[1..]);
        assert ([s[0]] + p[0])[1..] == p[0];
        BlankTrimsToNothing(s[1..]);
      }
    }
  }

  lemma {:induction false} TrimKeepsText(s: string)
    requires s != "" && !IsSpace(s[0])
    ensures TrimRight(s) != "" && TrimSpace(s) != ""
  {
    if IsSpace(s[|s| - 1]) {
      TrimKeepsText(s[..|s| - 1]);
    }
  }

  /**
   * Login banners do not change the version that is read, whatever they print, as long as they end
   * their line; and what is read is one trimmed, non-blank line of the command's own output.
   */
  lemma BannerInsensitive(banner: string, out: string)
    requires LastText(Split(out)) != ""
    ensures var v := LastText(Split(banner + [NL] + out));
      && v == LastText(Split(out))
      && TrimSpace(v) == v && NL !in v
  {
    SplitAtNewline(banner, out);
    LastTextConcat(Split(banner), Split(out));
    JoinOfSplit(out);
    var i := LastTextIsALine(Split(out));
    TrimFacts(Split(out)[i]);
  }

  /** And a banner is read as the version exactly when the command's own output is blank. */
  lemma BannerLeaksOnlyWhenOutputBlank(banner: string, out: string)
    ensures LastText(Split(banner + [NL] + out)) == LastText(Split(banner))
      <==> LastText(Split(out)) == "" || LastText(Split(out)) == LastText(Split(banner))
  {
    SplitAtNewline(banner, out);
    LastTextConcat(Split(banner), Split(out));
  }
}
