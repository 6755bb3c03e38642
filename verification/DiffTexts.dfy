/** Zero-context diffs of actual texts: the recovered rows are lines of the new text, under their own numbers. */
module DiffTexts {
  import opened Common
  import opened DiffScope

  /** The hunks turn the old text, from line i on, into the new one from line j on. A hunk that removes or adds nothing
      names the line before it, as the format has it. */
  predicate Turns(before: seq<string>, after: seq<string>, hs: seq<Hunk>, i: nat, j: nat)
    decreases |hs|
  {
    i <= |before| && j <= |after| &&
    if hs == [] then before[i..] == after[j..]
    else
      var h := hs[0];
      var a := if h.removed == [] then h.oldStart else h.oldStart - 1;
      var b := if h.added == [] then h.newStart else h.newStart - 1;
      && i <= a && j <= b && a + |h.removed| <= |before| && b + |h.added| <= |after|
      && before[i..a] == after[j..b] && before[a..a + |h.removed|] == h.removed && after[b..b + |h.added|] == h.added
      && Turns(before, after, hs[1..], a + |h.removed|, b + |h.added|)
  }

  lemma {:induction false} SiteAt(file: string, line: nat, texts: seq<string>)
    ensures var s := SitesAt(file, line, texts);
            |s| == |texts| && forall k | 0 <= k < |texts| :: s[k] == Site(file, line + k, texts[k])
    decreases |texts|
  {
    if texts != [] {
      SiteAt(file, line + 1, texts[1..]);
    }
  }

  /** Every site is a line of the new text under its number; every other line of the new text is one of the old. */
  ghost predicate Numbered(sites: seq<Site>, file: string, before: seq<string>, after: seq<string>, j: nat) {
    && (forall s | s in sites :: s.file == file && j < s.line <= |after| && after[s.line - 1] == s.text)
    && (forall m | j <= m < |after| :: after[m] in before || exists s :: s in sites && s.line == m + 1)
  }

  lemma HunkIsNumbered(file: string, before: seq<string>, after: seq<string>, h: Hunk, rest: seq<Site>, i: nat, j: nat, a: nat, b: nat)
    requires i <= a <= |before| && j <= b && b + |h.added| <= |after|
    requires before[i..a] == after[j..b] && after[b..b + |h.added|] == h.added && (h.added != [] ==> h.newStart == b + 1)
    requires Numbered(rest, file, before, after, b + |h.added|)
    ensures Numbered(SitesAt(file, h.newStart, h.added) + rest, file, before, after, j)
  {
    var here := SitesAt(file, h.newStart, h.added);
    SiteAt(file, h.newStart, h.added);
    forall s | s in here ensures s.file == file && j < s.line <= |after| && after[s.line - 1] == s.text {
      var k :| 0 <= k < |here| && here[k] == s;
      assert after[b..b + |h.added|][k] == after[b + k];
    }
    forall m | j <= m < |after| ensures after[m] in before || exists s :: s in here + rest && s.line == m + 1 {
      if m < b {
        assert after[j..b][m - j] == before[i..a][m - j] && before[i..a][m - j] == before[i + (m - j)];
      } else if m < b + |h.added| {
        assert here[m - b] in here + rest && here[m - b].line == m + 1;
      } else if after[m] !in before {
        var s :| s in rest && s.line == m + 1;
        assert s in here + rest;
      }
    }
  }

  lemma {:induction false} HunksAreNumbered(file: string, before: seq<string>, after: seq<string>, hs: seq<Hunk>, i: nat, j: nat)
    requires Turns(before, after, hs, i, j)
    ensures Numbered(HunkSites(file, hs), file, before, after, j)
    decreases |hs|
  {
    if hs == [] {
      forall m | j <= m < |after| ensures after[m] in before {
        assert after[j..][m - j] == before[i..][m - j] && before[i..][m - j] == before[i + (m - j)];
      }
    } else {
      hide Numbered;
      var h := hs[0];
      var a := if h.removed == [] then h.oldStart else h.oldStart - 1;
      var b := if h.added == [] then h.newStart else h.newStart - 1;
      HunksAreNumbered(file, before, after, hs[1..], a + |h.removed|, b + |h.added|);
      HunkIsNumbered(file, before, after, h, HunkSites(file, hs[1..]), i, j, a, b);
    }
  }

  /** A file's text before and after. */
  datatype Texts = Texts(before: seq<string>, after: seq<string>)

  /** One edit a file, and each turns the file's old text into its new one. */
  ghost predicate Describes(es: seq<FileEdit>, files: map<string, Texts>) {
    && (forall e | e in es && e.target.NewFile? ::
          e.target.path in files && Turns(files[e.target.path].before, files[e.target.path].after, e.hunks, 0, 0))
    && (forall i, j | 0 <= i < j < |es| && es[i].target.NewFile? && es[j].target.NewFile? :: es[i].target.path != es[j].target.path)
  }

  lemma {:induction false} TrueSitesMembers(es: seq<FileEdit>, s: Site)
    ensures s in TrueSites(es) <==> exists e :: e in es && s in EditSites(e)
  {
    hide EditSites;
    if es != [] {
      TrueSitesMembers(es[1..], s);
      assert forall e :: e in es <==> e == es[0] || e in es[1..];
    }
  }

  /** What the parser recovers from a diff of actual texts: every row is a line of the new text under its own number, and
      every other line of a changed file's new text was in its old text. */
  lemma RowsAreNewLines(es: seq<FileEdit>, files: map<string, Texts>)
    requires WellFormedEdits(es) && PlainEdits(es) && Unshifted(es) && Describes(es, files)
    ensures forall s | s in AddedSites(Print(es)) ::
              s.file in files && 1 <= s.line <= |files[s.file].after| && files[s.file].after[s.line - 1] == s.text
    ensures forall e, m | e in es && e.target.NewFile? && 0 <= m < |files[e.target.path].after| ::
              files[e.target.path].after[m] in files[e.target.path].before ||
              exists s :: s in AddedSites(Print(es)) && s.file == e.target.path && s.line == m + 1
  {
    hide WellFormedEdits, PlainEdits, Unshifted, Print, Turns, HunkSites, AddedSites, TrueSites;
    RecoversExactly(es);
    forall s | s in TrueSites(es)
      ensures s.file in files && 1 <= s.line <= |files[s.file].after| && files[s.file].after[s.line - 1] == s.text {
      TrueSitesMembers(es, s);
      var e :| e in es && s in EditSites(e);
      var t := files[e.target.path];
      HunksAreNumbered(e.target.path, t.before, t.after, e.hunks, 0, 0);
    }
    forall e, m | e in es && e.target.NewFile? && 0 <= m < |files[e.target.path].after|
      ensures files[e.target.path].after[m] in files[e.target.path].before ||
              exists s :: s in TrueSites(es) && s.file == e.target.path && s.line == m + 1 {
      var t := files[e.target.path];
      HunksAreNumbered(e.target.path, t.before, t.after, e.hunks, 0, 0);
      if t.after[m] !in t.before {
        var s :| s in HunkSites(e.target.path, e.hunks) && s.line == m + 1;
        TrueSitesMembers(es, s);
        assert s in EditSites(e);
      }
    }
  }
}
