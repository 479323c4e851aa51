/**
 * The per-request temporary directory of the `/download` handler and the two
 * ways the handler tears it down: after the transfer (app.js:112-115) and
 * after a failure (app.js:121-128). The directory is a list of entry names in
 * the order `readdir` returns them; the temp root and the uniqueness of
 * `mkdtemp` names are not modelled.
 */
module Workspace {
  import opened Js

  /** No name is listed twice, as in one directory. */
  predicate Distinct(s: seq<string>) {
    forall i, j :: 0 <= i < j < |s| ==> s[i] != s[j]
  }

  /** `s` with `x` taken out, the others kept in order. */
  function Without(s: seq<string>, x: string): (r: seq<string>)
    ensures forall y :: y in r <==> y in s && y != x
    ensures Distinct(s) ==> Distinct(r)
  {
    if s == [] then []
    else if s[0] == x then Without(s[1..], x)
    else
      var t := Without(s[1..], x);
      assert Distinct(s) ==> s[0] !in s[1..] by {
        if Distinct(s) {
          forall j | 0 <= j < |s| - 1 ensures s[1..][j] != s[0] {
            assert s[1..][j] == s[j + 1];
          }
        }
      }
      assert forall j :: 0 <= j < |t| ==> ([s[0]] + t)[j + 1] == t[j];
      [s[0]] + t
  }

  /** Taking out a name that is not listed changes nothing. */
  lemma {:induction false} WithoutAbsent(s: seq<string>, x: string)
    requires x !in s
    ensures Without(s, x) == s
  {
    if s != [] {
      WithoutAbsent(s[1..], x);
    }
  }

  /** Taking out the first of distinct names leaves the rest of the list. */
  lemma WithoutFirst(s: seq<string>)
    requires Distinct(s) && s != []
    ensures Without(s, s[0]) == s[1..]
  {
    WithoutAbsent(s[1..], s[0]);
  }

  /** `path.join(dir, name)` for a directory made by `mkdtemp` and an entry name. */
  function Join(dir: string, name: string): (p: string)
    ensures |p| == |dir| + 1 + |name|
    ensures p[..|dir|] == dir && p[|dir|] == '/' && p[|dir| + 1..] == name
  {
    dir + "/" + name
  }

  /** The temporary directory of one download. */
  class Dir {
    const path: string
    /** Entries the system refuses to unlink (held open, no permission, ...). */
    const pinned: set<string>
    /** Whether the directory still exists. */
    var present: bool
    /** Its entries, in `readdir` order. */
    var entries: seq<string>

    ghost predicate Valid()
      reads this
    {
      Distinct(entries) && (!present ==> entries == [])
    }

    /** `mkdtemp` resolved with `path`: a new, empty directory. */
    constructor Create(path: string, pinned: set<string>)
      ensures Valid()
      ensures this.path == path && this.pinned == pinned
      ensures present && entries == []
    {
      this.path := path;
      this.pinned := pinned;
      present := true;
      entries := [];
    }

    /** The extractor writes `produced` into the new directory. */
    method Fill(produced: seq<string>)
      requires Valid() && present && entries == [] && Distinct(produced)
      modifies this
      ensures Valid() && present && entries == produced
    {
      entries := produced;
    }

    /** `fs.promises.readdir` on the directory while it exists: its entries. */
    method ReadDir() returns (files: seq<string>)
      requires Valid() && present
      ensures files == entries
    {
      files := entries;
    }

    /** `fs.existsSync(path.join(dir, name))`. */
    method Exists(name: string) returns (b: bool)
      requires Valid()
      ensures b <==> present && name in entries
    {
      b := present && name in entries;
    }

    /** `unlink`: removes the entry unless it is missing or pinned; `ok` is
        false when the call rejects. */
    method Unlink(name: string) returns (ok: bool)
      requires Valid()
      modifies this
      ensures Valid() && present == old(present)
      ensures ok <==> old(present) && name in old(entries) && name !in pinned
      ensures entries == if ok then Without(old(entries), name) else old(entries)
    {
      ok := present && name in entries && name !in pinned;
      if ok {
        entries := Without(entries, name);
      }
    }

    /** `rmdir`: removes the directory only when it exists and is empty. */
    method Rmdir() returns (ok: bool)
      requires Valid()
      modifies this
      ensures Valid() && entries == old(entries)
      ensures ok <==> old(present) && old(entries) == []
      ensures present <==> old(present) && !ok
    {
      ok := present && entries == [];
      if ok {
        present := false;
      }
    }
  }

  /** Position of the first listed name the system refuses to unlink, or the
      length of the listing when there is none. */
  function FirstPinned(files: seq<string>, pinned: set<string>): (k: nat)
    ensures k <= |files|
    ensures forall i :: 0 <= i < k ==> files[i] !in pinned
    ensures k < |files| ==> files[k] in pinned
  {
    if files == [] || files[0] in pinned then 0 else 1 + FirstPinned(files[1..], pinned)
  }

  /** Cleanup in the handler's `catch`: list the directory, unlink every entry
      in listing order, then remove the directory; the first rejection ends the
      cleanup and is swallowed. Afterwards the entries before the first pinned
      one are gone, and the directory is gone exactly when none was pinned. */
  method RemoveAll(d: Dir)
    requires d.Valid() && d.present
    modifies d
    ensures d.Valid()
    ensures var k := FirstPinned(old(d.entries), d.pinned);
            d.entries == old(d.entries)[k..]
    ensures !d.present <==> forall f :: f in old(d.entries) ==> f !in d.pinned
  {
    var files := d.ReadDir();
    var i, ok := 0, true;
    while i < |files| && ok
      invariant 0 <= i <= |files|
      invariant d.Valid() && d.present
      invariant d.entries == files[i..]
      invariant forall j :: 0 <= j < i ==> files[j] !in d.pinned
      invariant !ok ==> i < |files| && files[i] in d.pinned
      decreases |files| - i, ok
    {
      WithoutFirst(files[i..]);
      ok := d.Unlink(files[i]);
      if ok {
        i := i + 1;
      }
    }
    if ok {
      var _ := d.Rmdir();
    }
    assert i == FirstPinned(files, d.pinned);
  }

  /** Cleanup in the transfer callback: unlink the sent entry if it exists,
      then remove the directory; a rejection is swallowed (a failed unlink
      skips the removal). The directory is gone afterwards exactly when the
      sent entry could be removed and nothing else was in it. */
  method RemoveSent(d: Dir, name: string)
    requires d.Valid()
    modifies d
    ensures d.Valid()
    ensures var stuck := old(d.present) && name in old(d.entries) && name in d.pinned;
            d.entries == (if stuck then old(d.entries) else Without(old(d.entries), name)) &&
            (d.present <==> old(d.present) && (stuck || Without(old(d.entries), name) != []))
  {
    var there := d.Exists(name);
    var ok := true;
    if there {
      ok := d.Unlink(name);
    } else {
      WithoutAbsent(d.entries, name);
    }
    if ok {
      var _ := d.Rmdir();
    }
  }
}
