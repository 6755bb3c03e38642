/** The findings of a scan and their ids (src/core/code-structure.ts 506-594). */
module ScanFindings {
  import opened Common
  import opened Text
  import opened Sorting
  import opened LineRanges

  datatype Tag = Yagni | Fallback | Shrink | Verify | Reuse | Solid | NPlusOne | UnboundedLoop | VerificationBypass | DbPool
               | Transaction

  /** What was measured in one scanned file; the ranges and the scope are those of its added hunks. */
  datatype Signals = Signals(path: string, changed: bool, tsNocheck: bool, owned: bool, forwardingOnly: bool,
                             sourceScope: string, ranges: seq<Range>, configFlags: nat, abstractions: nat, nPlusOne: nat,
                             unbounded: nat, render: nat, recursion: nat, bypasses: nat, pools: nat, transaction: bool)

  /** A finding before it gets its id. */
  datatype Draft = Draft(tag: Tag, file: string, line: nat, summary: string, sourceScope: string, ranges: seq<Range>)

  datatype Finding = Finding(id: string, tag: string, sourceScope: string, ranges: seq<Range>)

  function TagText(t: Tag): string {
    match t
    case Yagni => "yagni"
    case Fallback => "fallback"
    case Shrink => "shrink"
    case Verify => "verify"
    case Reuse => "reuse"
    case Solid => "solid"
    case NPlusOne => "n-plus-one"
    case UnboundedLoop => "unbounded-loop"
    case VerificationBypass => "verification-bypass"
    case DbPool => "db-pool"
    case Transaction => "transaction"
  }

  /** The tags that the sanity review takes up. */
  predicate Reviewed(t: Tag) {
    t == Solid || t == NPlusOne || t == UnboundedLoop || t == VerificationBypass || t == DbPool || t == Transaction
  }

  /** A fixed message without a colon, as all of the program's are between the colons it writes itself. */
  type Phrase = s: string | ':' !in s

  /** The fixed parts of the messages (lines 512-580). */
  datatype Wording = Wording(dense: Phrase, looped: Phrase, bypassed: Phrase, pooled: Phrase, unguarded: Phrase,
                             control: Phrase, noCheckOwned: Phrase, noCheck: Phrase, forwarding: Phrase)

  function LoopCounts(s: Signals): string {
    " unbounded=" + Decimal(s.unbounded) + ", render=" + Decimal(s.render) + ", recursion=" + Decimal(s.recursion)
  }

  function Plain(s: Signals, t: Tag, summary: string): Draft { Draft(t, s.path, 0, summary, "", []) }

  function Scoped(s: Signals, t: Tag, summary: string): Draft { Draft(t, s.path, 0, summary, s.sourceScope, s.ranges) }

  /** The findings about one file. */
  function FileDrafts(w: Wording, s: Signals): seq<Draft> {
    if !s.changed then []
    else
      When(s.tsNocheck, Plain(s, Verify, if s.owned then w.noCheckOwned else w.noCheck))
      + When(s.forwardingOnly, Plain(s, Reuse, w.forwarding))
      + When(s.configFlags > 6 || s.abstractions > 12, Scoped(s, Solid, w.dense))
      + When(s.nPlusOne > 0, Scoped(s, NPlusOne, Decimal(s.nPlusOne) + w.looped))
      + When(s.unbounded > 0 || s.render > 0 || s.recursion > 0, Scoped(s, UnboundedLoop, w.control + ":" + LoopCounts(s)))
      + When(s.bypasses > 0, Scoped(s, VerificationBypass, Decimal(s.bypasses) + w.bypassed))
      + When(s.pools > 0, Scoped(s, DbPool, Decimal(s.pools) + w.pooled))
      + When(s.transaction, Scoped(s, Transaction, w.unguarded))
  }

  function EntryDrafts(w: Wording, entries: seq<Signals>): seq<Draft> {
    if entries == [] then [] else FileDrafts(w, entries[0]) + EntryDrafts(w, entries[1..])
  }

  /** A scan: the findings about the change as a whole, the scanned files, and the findings about markers. */
  datatype Scan = Scan(general: seq<Draft>, entries: seq<Signals>, markers: seq<Draft>)

  /** Files come from a map keyed by path, and only files get findings that the sanity review takes up. */
  predicate WellScanned(s: Scan) {
    && (forall i, j | 0 <= i < j < |s.entries| :: s.entries[i].path != s.entries[j].path)
    && (forall d | d in s.general + s.markers :: !Reviewed(d.tag))
  }

  function Drafts(w: Wording, s: Scan): seq<Draft> { s.general + EntryDrafts(w, s.entries) + s.markers }

  /** What is hashed for an id. */
  function Preimage(d: Draft): string { TagText(d.tag) + ":" + (d.file + ":" + Decimal(d.line) + ":" + d.summary) }

  /** A shortened digest in hexadecimal, taken to be injective. */
  ghost predicate Hashes(hash: string -> string) {
    (forall a, b :: hash(a) == hash(b) ==> a == b) &&
    forall a :: forall c | c in hash(a) :: '0' <= c <= '9' || 'a' <= c <= 'f'
  }

  function IdOf(hash: string -> string, d: Draft): string { "eng-" + hash(Preimage(d)) }

  function Finalize(hash: string -> string, ds: seq<Draft>): seq<Finding> {
    if ds == [] then []
    else [Finding(IdOf(hash, ds[0]), TagText(ds[0].tag), ds[0].sourceScope, ds[0].ranges)] + Finalize(hash, ds[1..])
  }

  function Findings(hash: string -> string, w: Wording, s: Scan): seq<Finding> { Finalize(hash, Drafts(w, s)) }

  /** The loop over the scanned files. */
  method CollectDrafts(w: Wording, s: Scan) returns (findings: seq<Draft>)
    ensures findings == Drafts(w, s)
  {
    hide FileDrafts;
    findings := s.general;
    for i := 0 to |s.entries|
      invariant findings + EntryDrafts(w, s.entries[i..]) == s.general + EntryDrafts(w, s.entries)
    {
      var e := s.entries[i];
      assert s.entries[i..][1..] == s.entries[i + 1..];
      var found := FileDrafts(w, e);
      ghost var later := EntryDrafts(w, s.entries[i + 1..]);
      assert findings + (found + later) == (findings + found) + later;
      findings := findings + found;
    }
    findings := findings + s.markers;
  }

  // ---- no two findings of one file share a tag ----

  function Rank(t: Tag): nat {
    match t
    case Verify => 0
    case Reuse => 1
    case Solid => 2
    case NPlusOne => 3
    case UnboundedLoop => 4
    case VerificationBypass => 5
    case DbPool => 6
    case Transaction => 7
    case Yagni => 8
    case Fallback => 9
    case Shrink => 10
  }

  /** About one file, tags in order and below a rank. */
  ghost predicate Ordered(w: Wording, ds: seq<Draft>, file: string, below: nat) {
    && (forall d | d in ds :: d.file == file && Rank(d.tag) < below && Worded(w, d))
    && (forall i, j | 0 <= i < j < |ds| :: Rank(ds[i].tag) < Rank(ds[j].tag))
  }

  /** What stands between the file and the summary's last colonless part. */
  function Mid(w: Wording, t: Tag): string { if t == UnboundedLoop then ":0:" + w.control else ":0" }

  /** The hashed text of a reviewed finding: a colon, and after the last one a tail. */
  predicate Tailed(w: Wording, d: Draft, tail: string) {
    ':' !in tail && d.line == 0 &&
    d.summary == (if d.tag == UnboundedLoop then w.control + ":" + tail else tail)
  }

  ghost predicate Worded(w: Wording, d: Draft) { exists tail :: Tailed(w, d, tail) }

  lemma OrderedStep(w: Wording, ds: seq<Draft>, file: string, below: nat, hit: bool, d: Draft, tail: string)
    requires Ordered(w, ds, file, below) && d.file == file && Rank(d.tag) == below && Tailed(w, d, tail)
    ensures Ordered(w, ds + When(hit, d), file, below + 1)
  {
    hide Tailed;
    assert forall i | 0 <= i < |ds| :: ds[i] in ds;
    assert Worded(w, d);
  }

  lemma DecimalHasNoColon(n: nat)
    ensures ':' !in Decimal(n)
  {
    assert forall c | c in Decimal(n) :: IsDigit(c);
  }

  lemma CountsHaveNoColon(s: Signals)
    ensures ':' !in LoopCounts(s)
  {
    DecimalHasNoColon(s.unbounded);
    DecimalHasNoColon(s.render);
    DecimalHasNoColon(s.recursion);
  }

  lemma MessageStep(w: Wording, s: Signals, ds: seq<Draft>, t: Tag, hit: bool, tail: string) returns (more: seq<Draft>)
    requires Ordered(w, ds, s.path, Rank(t)) && ':' !in tail
    ensures var summary := if t == UnboundedLoop then w.control + ":" + tail else tail;
            more == ds + When(hit, if t == Verify || t == Reuse then Plain(s, t, summary) else Scoped(s, t, summary))
    ensures Ordered(w, more, s.path, Rank(t) + 1)
  {
    hide Ordered, Worded;
    var summary := if t == UnboundedLoop then w.control + ":" + tail else tail;
    var d := if t == Verify || t == Reuse then Plain(s, t, summary) else Scoped(s, t, summary);
    OrderedStep(w, ds, s.path, Rank(t), hit, d, tail);
    more := ds + When(hit, d);
  }

  lemma FileIsOrdered(w: Wording, s: Signals)
    ensures Ordered(w, FileDrafts(w, s), s.path, 8)
  {
    hide Ordered, LoopCounts, When, Plain, Scoped, Decimal;
    NothingOrdered(w, s.path);
    if s.changed {
      DecimalHasNoColon(s.nPlusOne);
      DecimalHasNoColon(s.bypasses);
      DecimalHasNoColon(s.pools);
      CountsHaveNoColon(s);
      var v := if s.owned then w.noCheckOwned else w.noCheck;
      var d0 := MessageStep(w, s, [], Verify, s.tsNocheck, v);
      assert d0 == When(s.tsNocheck, Plain(s, Verify, v));
      var d1 := MessageStep(w, s, d0, Reuse, s.forwardingOnly, w.forwarding);
      var d2 := MessageStep(w, s, d1, Solid, s.configFlags > 6 || s.abstractions > 12, w.dense);
      var d3 := MessageStep(w, s, d2, NPlusOne, s.nPlusOne > 0, Decimal(s.nPlusOne) + w.looped);
      var d4 := MessageStep(w, s, d3, UnboundedLoop, s.unbounded > 0 || s.render > 0 || s.recursion > 0, LoopCounts(s));
      var d5 := MessageStep(w, s, d4, VerificationBypass, s.bypasses > 0, Decimal(s.bypasses) + w.bypassed);
      var d6 := MessageStep(w, s, d5, DbPool, s.pools > 0, Decimal(s.pools) + w.pooled);
      var d7 := MessageStep(w, s, d6, Transaction, s.transaction, w.unguarded);
      assert FileDrafts(w, s) == d7;
    }
  }

  lemma NothingOrdered(w: Wording, file: string)
    ensures forall n :: Ordered(w, [], file, n)
  {
  }

  // ---- the hashed texts determine tag and file ----

  lemma FirstColon(a: string, x: string, b: string, y: string)
    requires ':' !in a && ':' !in b && a + ":" + x == b + ":" + y
    ensures a == b && x == y
  {
    var s := a + ":" + x;
    forall i | 0 <= i < |a| ensures s[i] != ':' { assert s[i] == a[i] && a[i] in a; }
    forall i | 0 <= i < |b| ensures s[i] != ':' { assert s[i] == b[i] && b[i] in b; }
    assert s[|a|] == ':' && s[|b|] == ':';
    assert a == s[..|a|] && b == s[..|b|] && x == s[|a| + 1..] && y == s[|b| + 1..];
  }

  lemma LastColon(u: string, x: string, v: string, y: string)
    requires ':' !in x && ':' !in y && u + ":" + x == v + ":" + y
    ensures u == v
  {
    var s := u + ":" + x;
    forall i | |u| < i < |s| ensures s[i] != ':' { assert s[i] == x[i - |u| - 1] && x[i - |u| - 1] in x; }
    forall i | |v| < i < |s| ensures s[i] != ':' { assert s[i] == y[i - |v| - 1] && y[i - |v| - 1] in y; }
    assert s[|u|] == ':' && s[|v|] == ':';
    assert u == s[..|u|] && v == s[..|v|];
  }

  lemma SameEnd(a: string, b: string, end: string)
    requires a + end == b + end
    ensures a == b
  {
    var s := a + end;
    assert |a| == |b|;
    assert a == s[..|a|] && b == s[..|b|];
  }

  lemma TagsDiffer(s: Tag, t: Tag)
    ensures TagText(s) == TagText(t) ==> s == t
    ensures ':' !in TagText(s)
  {
  }

  lemma PreimageShape(w: Wording, d: Draft, tail: string)
    requires Tailed(w, d, tail)
    ensures d.file + ":" + Decimal(d.line) + ":" + d.summary == (d.file + Mid(w, d.tag)) + ":" + tail
  {
    assert Decimal(0) == "0";
    if d.tag == UnboundedLoop {
      assert d.file + ":" + "0" + ":" + (w.control + ":" + tail) == (d.file + (":0:" + w.control)) + ":" + tail;
    } else {
      assert d.file + ":" + "0" + ":" + tail == (d.file + ":0") + ":" + tail;
    }
  }

  /** Two findings about files with the same id have the same tag and file: a file name with colons in it cannot blur
      the boundary. */
  lemma IdDetermines(hash: string -> string, w: Wording, c: Draft, d: Draft)
    requires Hashes(hash) && Worded(w, c) && Worded(w, d) && IdOf(hash, c) == IdOf(hash, d)
    ensures c.tag == d.tag && c.file == d.file
  {
    hide Tailed, Mid, TagText, Decimal;
    assert hash(Preimage(c)) == ("eng-" + hash(Preimage(c)))[4..] && hash(Preimage(d)) == ("eng-" + hash(Preimage(d)))[4..];
    var x, y := c.file + ":" + Decimal(c.line) + ":" + c.summary, d.file + ":" + Decimal(d.line) + ":" + d.summary;
    TagsDiffer(c.tag, d.tag);
    TagsDiffer(d.tag, c.tag);
    FirstColon(TagText(c.tag), x, TagText(d.tag), y);
    var s :| Tailed(w, c, s);
    var t :| Tailed(w, d, t);
    PreimageShape(w, c, s);
    PreimageShape(w, d, t);
    TailHasNoColon(w, c, s);
    TailHasNoColon(w, d, t);
    LastColon(c.file + Mid(w, c.tag), s, d.file + Mid(w, d.tag), t);
    SameEnd(c.file, d.file, Mid(w, c.tag));
  }

  lemma TailHasNoColon(w: Wording, d: Draft, tail: string)
    requires Tailed(w, d, tail)
    ensures ':' !in tail
  {
  }

  // ---- the ids of a scan ----

  ghost predicate DistinctKeys(ds: seq<Draft>) {
    forall i, j | 0 <= i < j < |ds| && Reviewed(ds[i].tag) && Reviewed(ds[j].tag) :: ds[i].tag != ds[j].tag || ds[i].file != ds[j].file
  }

  lemma {:induction false} EntriesAreDistinct(w: Wording, entries: seq<Signals>)
    requires forall i, j | 0 <= i < j < |entries| :: entries[i].path != entries[j].path
    ensures DistinctKeys(EntryDrafts(w, entries))
    ensures forall d | d in EntryDrafts(w, entries) :: Worded(w, d) && exists e :: e in entries && e.path == d.file
  {
    hide Worded, FileDrafts;
    if entries != [] {
      var e, rest := entries[0], entries[1..];
      EntriesAreDistinct(w, rest);
      FileIsOrdered(w, e);
      var a, b := FileDrafts(w, e), EntryDrafts(w, rest);
      forall d | d in b ensures d.file != e.path {
        var f :| f in rest && f.path == d.file;
      }
      assert forall i | 0 <= i < |a| :: a[i] in a;
      assert forall i | 0 <= i < |b| :: b[i] in b;
      KeysConcat(a, b, e.path);
      forall d | d in a + b ensures Worded(w, d) && exists f :: f in entries && f.path == d.file {
        if d in a {
          assert e in entries && e.path == d.file;
        } else {
          var f :| f in rest && f.path == d.file;
          assert f in entries;
        }
      }
    }
  }

  lemma KeysConcat(a: seq<Draft>, b: seq<Draft>, file: string)
    requires DistinctKeys(a) && DistinctKeys(b) && (forall d | d in a :: d.file == file) && (forall d | d in b :: d.file != file)
    ensures DistinctKeys(a + b)
  {
    var s := a + b;
    assert forall i | 0 <= i < |a| :: s[i] == a[i] && a[i] in a;
    assert forall i | |a| <= i < |s| :: s[i] == b[i - |a|] && b[i - |a|] in b;
  }

  lemma OthersDoNotCount(general: seq<Draft>, ds: seq<Draft>, markers: seq<Draft>)
    requires DistinctKeys(ds) && forall d | d in general + markers :: !Reviewed(d.tag)
    ensures DistinctKeys(general + ds + markers)
  {
    var s := general + ds + markers;
    assert forall i | 0 <= i < |general| :: s[i] == general[i] && general[i] in general + markers;
    assert forall i | |general| <= i < |general| + |ds| :: s[i] == ds[i - |general|];
    assert forall i | |general| + |ds| <= i < |s| ::
      s[i] == markers[i - |general| - |ds|] && markers[i - |general| - |ds|] in general + markers;
  }

  lemma {:induction false} FinalizeAt(hash: string -> string, ds: seq<Draft>)
    ensures var fs := Finalize(hash, ds);
            |fs| == |ds| && forall i | 0 <= i < |ds| :: fs[i].id == IdOf(hash, ds[i]) && fs[i].tag == TagText(ds[i].tag)
  {
    if ds != [] {
      FinalizeAt(hash, ds[1..]);
    }
  }

  predicate ReviewedTag(tag: string) {
    tag in {"solid", "n-plus-one", "unbounded-loop", "verification-bypass", "db-pool", "transaction"}
  }

  lemma ReviewedTags(t: Tag)
    ensures ReviewedTag(TagText(t)) <==> Reviewed(t)
  {
  }

  /** Where two findings that the sanity review takes up stand, their ids differ. */
  lemma ReviewedIdsDiffer(hash: string -> string, w: Wording, s: Scan)
    requires Hashes(hash) && WellScanned(s)
    ensures var fs := Findings(hash, w, s);
            forall i, j | 0 <= i < j < |fs| && ReviewedTag(fs[i].tag) && ReviewedTag(fs[j].tag) :: fs[i].id != fs[j].id
  {
    hide Worded, Hashes, IdOf, ReviewedTag, Reviewed, TagText;
    var ds, fs := Drafts(w, s), Findings(hash, w, s);
    EntriesAreDistinct(w, s.entries);
    OthersDoNotCount(s.general, EntryDrafts(w, s.entries), s.markers);
    FinalizeAt(hash, ds);
    forall i, j | 0 <= i < j < |fs| && ReviewedTag(fs[i].tag) && ReviewedTag(fs[j].tag) ensures fs[i].id != fs[j].id {
      ReviewedTags(ds[i].tag);
      ReviewedTags(ds[j].tag);
      ReviewedIsEntry(w, s, i);
      ReviewedIsEntry(w, s, j);
      if fs[i].id == fs[j].id {
        IdDetermines(hash, w, ds[i], ds[j]);
      }
    }
  }

  lemma ReviewedIsEntry(w: Wording, s: Scan, i: nat)
    requires WellScanned(s) && i < |Drafts(w, s)| && Reviewed(Drafts(w, s)[i].tag)
    ensures Drafts(w, s)[i] in EntryDrafts(w, s.entries)
  {
    hide Reviewed;
    var ds := EntryDrafts(w, s.entries);
    var all := Drafts(w, s);
    assert all[i] in all;
    assert forall d :: d in all <==> d in s.general + s.markers || d in ds;
  }

  /** An id is never empty and has no outer white space. */
  lemma IdIsTrimmed(hash: string -> string, d: Draft)
    requires Hashes(hash)
    ensures IdOf(hash, d) != [] && Trimmed(IdOf(hash, d))
  {
    var h := hash(Preimage(d));
    var id := "eng-" + h;
    assert h != [] ==> id[|id| - 1] == h[|h| - 1] && h[|h| - 1] in h;
  }
}
