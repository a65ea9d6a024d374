/**
 * Help-text normalisation for the subcommands: the usage text is trimmed
 * of surrounding white space; the flag set plays no part.
 */
module Usage {
  import opened GoStrings

  /** A usage text and the names of the flags it is for. */
  datatype Usager = Usager(usage: string, flags: seq<string>) {
    /** `Usager.String`: the trimmed text, followed by a blank line that
        the final right-trim of newlines takes away again. */
    function String(): (r: string)
      ensures r == TrimSpace(usage)
    {
      TrimSpaceEndsClean(usage);
      TrimRightChar(TrimSpace(usage) + "\n\n", '\n')
    }
  }

  /** Appending newlines to a text that does not end in one and
      right-trimming newlines gives the text back. */
  lemma {:induction false} TrimNewlinesAfter(x: string, tail: string)
    requires x == [] || x[|x| - 1] != '\n'
    requires forall k :: 0 <= k < |tail| ==> tail[k] == '\n'
    ensures TrimRightChar(x + tail, '\n') == x
  {
    var s := x + tail;
    var r := TrimRightChar(s, '\n');
    assert r == s[..|r|];
    assert s[..|x|] == x;
  }

  /** A trimmed text never ends in a newline, so the blank line appended by
      `String` is exactly what the right-trim removes. */
  lemma {:induction false} TrimSpaceEndsClean(usage: string)
    ensures TrimRightChar(TrimSpace(usage) + "\n\n", '\n') == TrimSpace(usage)
  {
    var t := TrimSpace(usage);
    assert IsSpace('\n');
    TrimNewlinesAfter(t, "\n\n");
  }

  /** `Usage`: the text of a `Usager` built from the text and the flags. */
  function Usage(txt: string, flags: seq<string>): (r: string)
    ensures r == TrimSpace(txt)
  {
    Usager(txt, flags).String()
  }

  /** The result never ends in a newline, does not depend on the flags,
      and normalising it again changes nothing. */
  lemma {:induction false} UsageNormalised(txt: string, flags: seq<string>, otherFlags: seq<string>)
    ensures var r := Usage(txt, flags);
      (r == [] || r[|r| - 1] != '\n')
      && r == Usage(txt, otherFlags)
      && Usage(r, flags) == r
  {
    assert IsSpace('\n');
    TrimSpaceIdempotent(txt);
  }

  /** Surrounding blanks and newlines are dropped and the text between
      them, inner spaces included, is kept: "  Text with spaces  \n\n"
      becomes "Text with spaces". */
  lemma {:induction false} UsageTrimsSurroundings(core: string, flags: seq<string>)
    requires core != [] && !IsSpace(core[0]) && !IsSpace(core[|core| - 1])
    ensures Usage("  " + core + "  \n\n", flags) == core
  {
    PaddedTrim(core);
  }

  /** The padded text's leading run of white space ends where `core`
      starts, and its trailing run starts where `core` ends. */
  lemma PaddedTrim(core: string)
    requires core != [] && !IsSpace(core[0]) && !IsSpace(core[|core| - 1])
    ensures var s := "  " + core + "  \n\n";
      SpaceRunEnd(s, 0) == 2 && SpaceRunStart(s, |s|) == |s| - 4 && s[2..|s| - 4] == core
  {
    var s := "  " + core + "  \n\n";
    var n := |s|;
    assert s[0] == ' ' && s[1] == ' ' && s[2] == core[0];
    assert SpaceRunEnd(s, 0) == SpaceRunEnd(s, 1) == SpaceRunEnd(s, 2) == 2;
    assert s[n - 1] == '\n' && s[n - 2] == '\n' && s[n - 3] == ' ' && s[n - 4] == ' ';
    assert s[n - 5] == core[|core| - 1];
    assert SpaceRunStart(s, n) == SpaceRunStart(s, n - 1) == SpaceRunStart(s, n - 2)
        == SpaceRunStart(s, n - 3) == SpaceRunStart(s, n - 4) == n - 4;
    assert s[2..n - 4] == core;
  }
}
