/** What several components use: optional values, sets kept as sequences, blocker lists and file paths. */
module Common {

  datatype Option<+T> = None | Some(value: T)

  /** `[...new Set(ss)]`: each member once, where it first occurs. */
  function Distinct(ss: seq<string>): seq<string> {
    if ss == [] then []
    else
      var init := Distinct(ss[..|ss| - 1]);
      if ss[|ss| - 1] in init then init else init + [ss[|ss| - 1]]
  }

  lemma {:induction false} DistinctIsSet(ss: seq<string>)
    ensures forall s :: s in Distinct(ss) <==> s in ss
  {
    if ss != [] {
      var init, last := ss[..|ss| - 1], ss[|ss| - 1];
      DistinctIsSet(init);
      assert ss == init + [last];
    }
  }

  /** A list that one check contributes to. */
  function When<T>(hit: bool, x: T): seq<T> { if hit then [x] else [] }

  function Push<T>(xs: seq<T>, hit: bool, x: T): seq<T> { if hit then xs + [x] else xs }

  predicate IsAbsolute(path: string) { path != [] && path[0] == '/' }

  /** A path's last component, trailing separators aside. */
  function Basename(path: string): string
    decreases |path|
  {
    if path == [] then []
    else if path[|path| - 1] == '/' then Basename(path[..|path| - 1])
    else LastComponent(path)
  }

  function LastComponent(path: string): string {
    if path == [] || path[|path| - 1] == '/' then []
    else LastComponent(path[..|path| - 1]) + [path[|path| - 1]]
  }
}
