/**
 * Namespace strings: a collection's full name is the database name, a dot,
 * and the collection name.  `DBApiLayer` strips its own database prefix
 * from replies and resolves a full name to a collection of this database
 * or of a sister database.
 */
module Namespaces {

  /** `_root + "." + name`, the `_fullNameSpace` of a collection. */
  function FullName(root: string, name: string): string
  {
    root + "." + name
  }

  /** `_removeRoot`: drops the prefix `root + "."` when `ns` starts with it. */
  function RemoveRoot(root: string, ns: string): (r: string)
    ensures root + "." <= ns ==> ns == root + "." + r
    ensures !(root + "." <= ns) ==> r == ns
  {
    if root + "." <= ns then ns[|root| + 1..] else ns
  }

  /** Stripping the root from a full name of this database gives back the collection name. */
  lemma RemoveRootOfFullName(root: string, name: string)
    ensures RemoveRoot(root, FullName(root, name)) == name
  {
    assert root + "." <= FullName(root, name);
  }

  /** `String.indexOf(c)`: the first index of `c`, or -1. */
  function IndexOf(s: string, c: char): (i: int)
    ensures i == -1 <==> c !in s
    ensures i >= 0 ==> i < |s| && s[i] == c && c !in s[..i]
  {
    if s == [] then -1
    else if s[0] == c then 0
    else
      var j := IndexOf(s[1..], c);
      assert s[1..] == s[1..][..|s[1..]|];
      if j < 0 then -1
      else
        assert s[..j + 1] == [s[0]] + s[1..][..j];
        j + 1
  }

  /** Where `getCollectionFromFull` looks a collection up. */
  datatype Location = Local(name: string) | Sister(db: string, name: string)

  /**
   * `getCollectionFromFull`: a name without a dot is a collection of this
   * database; otherwise it is split at the first dot into a database name
   * and a collection name, and the database is this one or a sister.
   */
  function Locate(root: string, full: string): Location
  {
    var idx := IndexOf(full, '.');
    if idx < 0 then Local(full)
    else
      var db := full[..idx];
      var table := full[idx + 1..];
      if root == db then Local(table) else Sister(db, table)
  }

  /** A name with no dot is local, whole. */
  lemma LocateNoDot(root: string, full: string)
    requires '.' !in full
    ensures Locate(root, full) == Local(full)
  {
  }

  /** A dotted name splits at its first dot; the collection part may itself contain dots. */
  lemma LocateSplit(root: string, db: string, table: string)
    requires '.' !in db
    ensures Locate(root, db + "." + table) == if db == root then Local(table) else Sister(db, table)
  {
    var full := db + "." + table;
    var idx := IndexOf(full, '.');
    assert full[|db|] == '.';
    assert forall k :: 0 <= k < |db| ==> full[k] == db[k];
    assert idx == |db|;
    assert full[..idx] == db;
    assert full[idx + 1..] == table;
  }

  /** So a collection's own full name resolves back to it when the database name has no dot. */
  lemma LocateFullName(root: string, name: string)
    requires '.' !in root
    ensures Locate(root, FullName(root, name)) == Local(name)
  {
    LocateSplit(root, root, name);
  }
}
