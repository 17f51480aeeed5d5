// Duplicate workflow names across files: the first use in order of loading wins,
// every later one is an error that names both files.
module Dedup {
  import opened Base

  datatype Source<W> = Source(path: string, name: string, body: W)

  /** No earlier file uses the name. */
  predicate FirstUse<W>(loaded: seq<Source<W>>, i: nat)
    requires i < |loaded|
  {
    forall j :: 0 <= j < i ==> loaded[j].name != loaded[i].name
  }

  function Names<W>(loaded: seq<Source<W>>): set<string> {
    if loaded == [] then {} else Names(loaded[..|loaded| - 1]) + {loaded[|loaded| - 1].name}
  }

  function Kept<W>(loaded: seq<Source<W>>): seq<Source<W>> {
    if loaded == [] then [] else
    var earlier, last := loaded[..|loaded| - 1], loaded[|loaded| - 1];
    if last.name in Names(earlier) then Kept(earlier) else Kept(earlier) + [last]
  }

  /** The first path under which a name was loaded. */
  function FirstPath<W>(loaded: seq<Source<W>>, name: string): string
    requires name in Names(loaded)
  {
    var earlier, last := loaded[..|loaded| - 1], loaded[|loaded| - 1];
    if name in Names(earlier) then FirstPath(earlier, name) else last.path
  }

  function Clashes<W>(loaded: seq<Source<W>>): seq<(string, string)> {
    if loaded == [] then [] else
    var earlier, last := loaded[..|loaded| - 1], loaded[|loaded| - 1];
    if last.name in Names(earlier) then Clashes(earlier) + [(last.path, FirstPath(earlier, last.name))]
    else Clashes(earlier)
  }

  /** The dedup loop of `_execute`. */
  method Deduplicate<W>(loaded: seq<Source<W>>) returns (kept: seq<Source<W>>, clashes: seq<(string, string)>)
    ensures kept == Kept(loaded) && clashes == Clashes(loaded)
  {
    kept, clashes := [], [];
    var seen: map<string, string> := map[];
    for n := 0 to |loaded|
      invariant kept == Kept(loaded[..n]) && clashes == Clashes(loaded[..n])
      invariant seen.Keys == Names(loaded[..n])
      invariant forall name :: name in seen ==> seen[name] == FirstPath(loaded[..n], name)
    {
      var source := loaded[n];
      assert loaded[..n + 1][..n] == loaded[..n];
      if source.name in seen {
        clashes := clashes + [(source.path, seen[source.name])];
        continue;
      }
      seen := seen[source.name := source.path];
      kept := kept + [source];
    }
    assert loaded[..|loaded|] == loaded;
  }

  lemma {:induction false} NamesAreUsed<W>(loaded: seq<Source<W>>, name: string)
    ensures name in Names(loaded) <==> exists i :: 0 <= i < |loaded| && loaded[i].name == name
  {
    if loaded != [] {
      var n := |loaded| - 1;
      NamesAreUsed(loaded[..n], name);
      if name in Names(loaded[..n]) {
        var i :| 0 <= i < n && loaded[..n][i].name == name;
        assert loaded[i].name == name;
      } else if name in Names(loaded) {
        assert loaded[n].name == name;
      } else {
        forall i | 0 <= i < |loaded| ensures loaded[i].name != name {
          assert i < n ==> loaded[..n][i].name != name;
        }
      }
    }
  }

  /** For each position, whether it is the first use of its name. */
  function Flags<W>(loaded: seq<Source<W>>): seq<bool> {
    seq(|loaded|, i requires 0 <= i < |loaded| => FirstUse(loaded, i))
  }

  /** The positions with the given flag, in ascending order. */
  ghost predicate Positions(flags: seq<bool>, ids: seq<nat>, flag: bool) {
    Increasing(ids) && forall i: nat :: i in ids <==> i < |flags| && flags[i] == flag
  }

  /** `kept` lists the first uses of the names, in the order of loading. */
  ghost predicate ListsFirstUses<W>(loaded: seq<Source<W>>, kept: seq<Source<W>>, firsts: seq<nat>) {
    Positions(Flags(loaded), firsts, true) && TakenAt(loaded, kept, firsts)
  }

  ghost predicate TakenAt<W>(loaded: seq<Source<W>>, kept: seq<Source<W>>, firsts: seq<nat>) {
    |kept| == |firsts| && forall k :: 0 <= k < |kept| ==> firsts[k] < |loaded| && kept[k] == loaded[firsts[k]]
  }

  lemma TakenAtGrows<W>(earlier: seq<Source<W>>, last: Source<W>, kept: seq<Source<W>>, firsts: seq<nat>)
    requires TakenAt(earlier, kept, firsts)
    ensures TakenAt(earlier + [last], kept, firsts) && TakenAt(earlier + [last], kept + [last], firsts + [|earlier|])
  {
  }

  /** The clash names the file of a repeated use and the file of the first use. */
  predicate IsClash<W>(loaded: seq<Source<W>>, i: nat, clash: (string, string)) {
    && i < |loaded| && clash.0 == loaded[i].path
    && exists f: nat :: f < i && FirstUse(loaded, f) && loaded[f].name == loaded[i].name && loaded[f].path == clash.1
  }

  /** `clashes` lists all other uses, in the order of loading. */
  ghost predicate ListsRepeats<W>(loaded: seq<Source<W>>, clashes: seq<(string, string)>, repeats: seq<nat>) {
    && Positions(Flags(loaded), repeats, false)
    && |clashes| == |repeats| && (forall k :: 0 <= k < |clashes| ==> IsClash(loaded, repeats[k], clashes[k]))
  }

  lemma FirstUseIsLocal<W>(earlier: seq<Source<W>>, last: Source<W>, i: nat)
    requires i < |earlier|
    ensures FirstUse(earlier + [last], i) <==> FirstUse(earlier, i)
  {
    var loaded := earlier + [last];
    assert forall j :: 0 <= j <= i ==> loaded[j] == earlier[j];
    if FirstUse(loaded, i) {
      forall j | 0 <= j < i ensures earlier[j].name != earlier[i].name { assert loaded[j].name != loaded[i].name; }
    }
  }

  lemma LastIsFirstUse<W>(earlier: seq<Source<W>>, last: Source<W>)
    ensures FirstUse(earlier + [last], |earlier|) <==> last.name !in Names(earlier)
  {
    var loaded := earlier + [last];
    NamesAreUsed(earlier, last.name);
    assert forall j :: 0 <= j < |earlier| ==> loaded[j] == earlier[j];
    if last.name in Names(earlier) {
      var j :| 0 <= j < |earlier| && earlier[j].name == last.name;
      assert loaded[j].name == last.name;
    }
  }

  lemma ClashIsLocal<W>(earlier: seq<Source<W>>, last: Source<W>, i: nat, clash: (string, string))
    requires IsClash(earlier, i, clash)
    ensures IsClash(earlier + [last], i, clash)
  {
    var f: nat :| f < i && FirstUse(earlier, f) && earlier[f].name == earlier[i].name && earlier[f].path == clash.1;
    FirstUseIsLocal(earlier, last, f);
    var loaded := earlier + [last];
    assert loaded[f] == earlier[f] && loaded[i] == earlier[i];
  }

  lemma {:induction false} FirstPathIsFirst<W>(loaded: seq<Source<W>>, name: string) returns (f: nat)
    requires name in Names(loaded)
    ensures f < |loaded| && FirstUse(loaded, f) && loaded[f].name == name && loaded[f].path == FirstPath(loaded, name)
  {
    var n := |loaded| - 1;
    var earlier, last := loaded[..n], loaded[n];
    assert loaded == earlier + [last];
    if name in Names(earlier) {
      f := FirstPathIsFirst(earlier, name);
      FirstUseIsLocal(earlier, last, f);
      assert loaded[f] == earlier[f];
    } else {
      f := n;
      LastIsFirstUse(earlier, last);
    }
  }

  lemma NextFlag<W>(earlier: seq<Source<W>>, last: Source<W>)
    ensures Flags(earlier + [last]) == Flags(earlier) + [last.name !in Names(earlier)]
  {
    LastIsFirstUse(earlier, last);
    forall i: nat | i < |earlier| ensures FirstUse(earlier + [last], i) == FirstUse(earlier, i) {
      FirstUseIsLocal(earlier, last, i);
    }
  }

  lemma NextPosition(flags: seq<bool>, ids: seq<nat>, flag: bool, last: bool)
    requires Positions(flags, ids, flag)
    ensures Positions(flags + [last], if last == flag then ids + [|flags|] else ids, flag)
    ensures forall k :: 0 <= k < |ids| ==> ids[k] < |flags|
  {
    forall k | 0 <= k < |ids| ensures ids[k] < |flags| {
      assert ids[k] in ids;
    }
  }

  lemma NextFirst<W>(earlier: seq<Source<W>>, last: Source<W>, kept: seq<Source<W>>, firsts: seq<nat>)
    requires ListsFirstUses(earlier, kept, firsts)
    ensures var loaded := earlier + [last];
            if last.name in Names(earlier) then ListsFirstUses(loaded, kept, firsts)
            else ListsFirstUses(loaded, kept + [last], firsts + [|earlier|])
  {
    NextFlag(earlier, last);
    NextPosition(Flags(earlier), firsts, true, last.name !in Names(earlier));
    TakenAtGrows(earlier, last, kept, firsts);
  }

  lemma NextRepeat<W>(earlier: seq<Source<W>>, last: Source<W>, clashes: seq<(string, string)>, repeats: seq<nat>)
    requires ListsRepeats(earlier, clashes, repeats)
    ensures var loaded := earlier + [last];
            if last.name in Names(earlier)
            then ListsRepeats(loaded, clashes + [(last.path, FirstPath(earlier, last.name))], repeats + [|earlier|])
            else ListsRepeats(loaded, clashes, repeats)
  {
    NextFlag(earlier, last);
    NextPosition(Flags(earlier), repeats, false, last.name !in Names(earlier));
    forall k | 0 <= k < |repeats| ensures IsClash(earlier + [last], repeats[k], clashes[k]) {
      ClashIsLocal(earlier, last, repeats[k], clashes[k]);
    }
    if last.name in Names(earlier) {
      NewClash(earlier, last);
    }
  }

  lemma NewClash<W>(earlier: seq<Source<W>>, last: Source<W>)
    requires last.name in Names(earlier)
    ensures IsClash(earlier + [last], |earlier|, (last.path, FirstPath(earlier, last.name)))
  {
    var f := FirstPathIsFirst(earlier, last.name);
    FirstUseIsLocal(earlier, last, f);
    assert (earlier + [last])[f] == earlier[f];
  }

  /**
   * What deduplication promises: the first use of each name is kept, in order of
   * loading; every other use is reported, in order, with the file it repeats.
   */
  lemma {:induction false} DeduplicationKeepsFirstUses<W>(loaded: seq<Source<W>>)
    returns (firsts: seq<nat>, repeats: seq<nat>)
    ensures ListsFirstUses(loaded, Kept(loaded), firsts)
    ensures ListsRepeats(loaded, Clashes(loaded), repeats)
    ensures |Kept(loaded)| + |Clashes(loaded)| == |loaded|
  {
    firsts, repeats := [], [];
    if loaded != [] {
      var n := |loaded| - 1;
      var earlier, last := loaded[..n], loaded[n];
      firsts, repeats := DeduplicationKeepsFirstUses(earlier);
      assert loaded == earlier + [last];
      NextFirst(earlier, last, Kept(earlier), firsts);
      NextRepeat(earlier, last, Clashes(earlier), repeats);
      if last.name in Names(earlier) {
        repeats := repeats + [n];
      } else {
        firsts := firsts + [n];
      }
    }
  }
}
