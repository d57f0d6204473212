/**
 * File triage: deciding which directory entries are usable images and
 * splitting the listing into usable paths/ids and corrupted ids.
 */
module Validator {

  import opened Wrappers
  import opened Text

  /**
   * One entry of the data directory: its name in the listing, its size in
   * bytes, and the format detected from its header bytes (the name
   * `imghdr.what` reports, or None when no format matches).
   */
  datatype Entry = Entry(name: string, size: nat, fmt: Option<string>)

  /** The formats accepted as images. */
  const ALLOWED_FORMATS: seq<string> := ["jpeg", "png", "gif"]

  /** `is_valid`: the size is checked first, then the detected format. */
  predicate IsValid(e: Entry): (ok: bool)
    ensures e.size == 0 ==> !ok
    ensures ok <==> e.size != 0 && (e.fmt == Some("jpeg") || e.fmt == Some("png") || e.fmt == Some("gif"))
  {
    if e.size == 0 then false
    else if !(e.fmt.Some? && e.fmt.value in ALLOWED_FORMATS) then false
    else true
  }

  /** `str(fn).split('.')[0]`: the name up to its first dot. */
  function IdOf(name: string): (id: string)
    ensures id <= name
    ensures '.' !in id
    ensures |id| < |name| ==> name[|id|] == '.'
  {
    JoinSplit(name, '.');
    var parts := Split(name, '.');
    assert |parts| > 1 ==> name == parts[0] + ['.'] + Join(parts[1..], '.');
    parts[0]
  }

  /** The three properties of `IdOf` single out one string: the text before the first dot. */
  lemma IdOfUnique(name: string, p: string)
    requires p <= name && '.' !in p
    requires |p| < |name| ==> name[|p|] == '.'
    ensures p == IdOf(name)
  {
  }

  /** `os.path.join(dir, name)` for two components, with POSIX rules. */
  function JoinPath(dir: string, name: string): string
  {
    if |name| > 0 && name[0] == '/' then name
    else if dir == [] || dir[|dir| - 1] == '/' then dir + name
    else dir + "/" + name
  }

  /**
   * The joined path ends with the file name; a relative name keeps the
   * directory as prefix with a separator before the name, and an
   * absolute name discards the directory.
   */
  lemma JoinPathShape(dir: string, name: string)
    ensures var path := JoinPath(dir, name);
      && |name| <= |path| && path[|path| - |name|..] == name
      && (|name| > 0 && name[0] == '/' ==> path == name)
      && ((|name| == 0 || name[0] != '/') && dir != [] ==>
            dir <= path && |path| - |name| > 0 && path[|path| - |name| - 1] == '/')
  {
  }

  /** What `list_files` returns. */
  datatype Triaged = Triaged(imgPaths: seq<string>, fns: seq<string>, corruptedFns: seq<string>)

  /** The result of `list_files` after the entries `es`, one append per entry. */
  function Triage(dir: string, es: seq<Entry>): Triaged
    decreases |es|
  {
    if es == [] then Triaged([], [], [])
    else
      var t := Triage(dir, es[..|es| - 1]);
      var e := es[|es| - 1];
      if IsValid(e) then
        Triaged(t.imgPaths + [JoinPath(dir, e.name)], t.fns + [IdOf(e.name)], t.corruptedFns)
      else
        Triaged(t.imgPaths, t.fns, t.corruptedFns + [IdOf(e.name)])
  }

  /** Triage of a listing with one more entry appends that entry to exactly one side. */
  lemma TriageSnoc(dir: string, es: seq<Entry>, e: Entry)
    ensures Triage(dir, es + [e])
         == if IsValid(e) then
              Triaged(Triage(dir, es).imgPaths + [JoinPath(dir, e.name)], Triage(dir, es).fns + [IdOf(e.name)],
                      Triage(dir, es).corruptedFns)
            else
              Triaged(Triage(dir, es).imgPaths, Triage(dir, es).fns, Triage(dir, es).corruptedFns + [IdOf(e.name)])
  {
    assert (es + [e])[..|es|] == es;
  }

  /** `list_files`: one pass over the listing, appending each entry to one side. */
  method ListFiles(dataDir: string, listing: seq<Entry>)
    returns (imgPaths: seq<string>, fns: seq<string>, corruptedFns: seq<string>)
    ensures Triaged(imgPaths, fns, corruptedFns) == Triage(dataDir, listing)
  {
    imgPaths, fns, corruptedFns := [], [], [];
    for i := 0 to |listing|
      invariant Triaged(imgPaths, fns, corruptedFns) == Triage(dataDir, listing[..i])
    {
      var fn := listing[i];
      assert listing[..i + 1][..i] == listing[..i];
      var imgPath := JoinPath(dataDir, fn.name);
      if IsValid(fn) {
        imgPaths := imgPaths + [imgPath];
        fns := fns + [IdOf(fn.name)];
      } else {
        corruptedFns := corruptedFns + [IdOf(fn.name)];
      }
    }
    assert listing[..|listing|] == listing;
  }

  predicate Increasing(xs: seq<nat>)
  {
    forall i, j :: 0 <= i < j < |xs| ==> xs[i] < xs[j]
  }

  /** The positions, in listing order, of the entries whose validity is `valid`. */
  function Positions(es: seq<Entry>, valid: bool): seq<nat>
    decreases |es|
  {
    if es == [] then []
    else
      var ps := Positions(es[..|es| - 1], valid);
      if IsValid(es[|es| - 1]) == valid then ps + [|es| - 1] else ps
  }

  /**
   * `Positions` lists, in increasing order, every position whose entry has
   * the given validity, and no other.
   */
  lemma {:induction false} PositionsExact(es: seq<Entry>, valid: bool)
    ensures var ps := Positions(es, valid);
      && Increasing(ps)
      && (forall k :: 0 <= k < |ps| ==> ps[k] < |es| && IsValid(es[ps[k]]) == valid)
      && (forall i :: 0 <= i < |es| && IsValid(es[i]) == valid ==> i in ps)
    decreases |es|
  {
    if es != [] {
      var init := es[..|es| - 1];
      PositionsExact(init, valid);
      var ps := Positions(init, valid);
      forall k | 0 <= k < |ps|
        ensures IsValid(es[ps[k]]) == valid
      {
        assert es[ps[k]] == init[ps[k]];
      }
      forall i | 0 <= i < |es| - 1 && IsValid(es[i]) == valid
        ensures i in ps
      {
        assert es[i] == init[i];
      }
    }
  }

  /** `list_files` loses no entry: the two sides together are as long as the listing. */
  lemma {:induction false} TriageCounts(dir: string, es: seq<Entry>)
    ensures var t := Triage(dir, es);
      && |t.imgPaths| == |t.fns| == |Positions(es, true)|
      && |t.corruptedFns| == |Positions(es, false)|
      && |t.fns| + |t.corruptedFns| == |es|
    decreases |es|
  {
    if es != [] {
      TriageCounts(dir, es[..|es| - 1]);
    }
  }

  /**
   * The usable outputs are, in listing order, the paths and ids of exactly
   * the usable entries: the k-th usable entry gives the k-th path and id.
   */
  lemma {:induction false} TriageUsable(dir: string, es: seq<Entry>)
    ensures var t := Triage(dir, es);
      var us := Positions(es, true);
      && |t.imgPaths| == |t.fns| == |us|
      && forall k :: 0 <= k < |us| ==>
           us[k] < |es| && t.imgPaths[k] == JoinPath(dir, es[us[k]].name) && t.fns[k] == IdOf(es[us[k]].name)
    decreases |es|
  {
    if es != [] {
      var init := es[..|es| - 1];
      var e := es[|es| - 1];
      TriageUsable(dir, init);
      TriageCounts(dir, init);
      var t0 := Triage(dir, init);
      var us0 := Positions(init, true);
      forall k | 0 <= k < |us0|
        ensures t0.imgPaths[k] == JoinPath(dir, es[us0[k]].name) && t0.fns[k] == IdOf(es[us0[k]].name)
      {
        assert es[us0[k]] == init[us0[k]];
      }
    }
  }

  /** The corrupted output is, in listing order, the ids of exactly the other entries. */
  lemma {:induction false} TriageCorrupted(dir: string, es: seq<Entry>)
    ensures var t := Triage(dir, es);
      var cs := Positions(es, false);
      && |t.corruptedFns| == |cs|
      && forall k :: 0 <= k < |cs| ==> cs[k] < |es| && t.corruptedFns[k] == IdOf(es[cs[k]].name)
    decreases |es|
  {
    if es != [] {
      var init := es[..|es| - 1];
      TriageCorrupted(dir, init);
      TriageCounts(dir, init);
      var t0 := Triage(dir, init);
      var cs0 := Positions(init, false);
      forall k | 0 <= k < |cs0|
        ensures t0.corruptedFns[k] == IdOf(es[cs0[k]].name)
      {
        assert es[cs0[k]] == init[cs0[k]];
      }
    }
  }

  /** Each position of the listing is on exactly one side. */
  lemma PositionsPartition(es: seq<Entry>, i: nat)
    requires i < |es|
    ensures i in Positions(es, IsValid(es[i]))
    ensures i !in Positions(es, !IsValid(es[i]))
  {
    PositionsExact(es, true);
    PositionsExact(es, false);
  }

  /** Ids are not de-duplicated: two files differing only in extension share their id. */
  lemma SameStemSameId()
    ensures IdOf("a.jpg") == IdOf("a.png") == "a"
    ensures IdOf("a.b.jpg") == "a"
    ensures IdOf(".x") == ""
    ensures IdOf("noext") == "noext"
  {
    IdOfUnique("a.jpg", "a");
    IdOfUnique("a.png", "a");
    IdOfUnique("a.b.jpg", "a");
    IdOfUnique(".x", "");
    IdOfUnique("noext", "noext");
  }
}
