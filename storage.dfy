/**
 * The saved-entry store: one file holding the list of saved DNS entries.
 * Loading tolerates every kind of damage by yielding the empty list; adding
 * and deleting load the list, change it and write the whole list back.
 * The file's encoding and its location are abstracted: the file is either
 * absent, unreadable, unparseable, or holds a list of entries.
 */
module Storage {
  import opened Base
  import opened Domain

  /** What the storage file holds, as far as loading can tell. */
  datatype FileState = Missing | Unreadable | Malformed | Stored(entries: seq<SavedDnsEntry>)

  /** How an attempt to write a list ends; the file system decides. */
  datatype WriteOutcome = Written | SerializeFailed(reason: string) | WriteFailed(reason: string)

  /** The list loading yields: the stored list, or the empty list whatever went wrong. */
  function LoadSavedDns(f: FileState): (entries: seq<SavedDnsEntry>)
    ensures f.Stored? ==> entries == f.entries
    ensures !f.Stored? ==> entries == []
  {
    match f
    case Stored(entries) => entries
    case _ => []
  }

  /** The file after an attempt to write `entries`: replaced on success, untouched on failure. */
  function AfterSave(f: FileState, entries: seq<SavedDnsEntry>, outcome: WriteOutcome): (g: FileState)
    ensures outcome.Written? ==> LoadSavedDns(g) == entries
    ensures !outcome.Written? ==> g == f
  {
    if outcome.Written? then Stored(entries) else f
  }

  /** What a write reports: success, or the failure reason behind a fixed prefix. */
  function SaveResult(outcome: WriteOutcome): (r: Outcome)
    ensures r.Pass? <==> outcome.Written?
    ensures outcome.SerializeFailed? ==> r == Fail("Failed to serialize: " + outcome.reason)
    ensures outcome.WriteFailed? ==> r == Fail("Failed to write file: " + outcome.reason)
  {
    match outcome
    case Written => Pass
    case SerializeFailed(reason) => Fail("Failed to serialize: " + reason)
    case WriteFailed(reason) => Fail("Failed to write file: " + reason)
  }

  /** The entries whose name differs from `name` (compared exactly), in their original order. */
  function WithoutName(entries: seq<SavedDnsEntry>, name: string): (kept: seq<SavedDnsEntry>)
    ensures |kept| <= |entries|
    ensures forall e :: e in kept <==> e in entries && e.name != name
  {
    if entries == [] then []
    else if entries[0].name != name then [entries[0]] + WithoutName(entries[1..], name)
    else WithoutName(entries[1..], name)
  }

  /** Filtering a concatenation filters each side. */
  lemma {:induction false} WithoutNameAppend(a: seq<SavedDnsEntry>, b: seq<SavedDnsEntry>, name: string)
    ensures WithoutName(a + b, name) == WithoutName(a, name) + WithoutName(b, name)
  {
    if a == [] {
      assert a + b == b;
    } else {
      var ab := a + b;
      assert ab[0] == a[0] && ab[1..] == a[1..] + b;
      WithoutNameAppend(a[1..], b, name);
      if a[0].name != name {
        calc {
          WithoutName(ab, name);
          [a[0]] + WithoutName(a[1..] + b, name);
          [a[0]] + (WithoutName(a[1..], name) + WithoutName(b, name));
          ([a[0]] + WithoutName(a[1..], name)) + WithoutName(b, name);
        }
      }
    }
  }

  /** When no entry has the name, nothing is removed. */
  lemma {:induction false} WithoutAbsentName(entries: seq<SavedDnsEntry>, name: string)
    requires forall k :: 0 <= k < |entries| ==> entries[k].name != name
    ensures WithoutName(entries, name) == entries
  {
    if entries != [] {
      WithoutAbsentName(entries[1..], name);
      assert [entries[0]] + entries[1..] == entries;
    }
  }

  /** Removing the same name twice removes nothing more. */
  lemma WithoutNameIdempotent(entries: seq<SavedDnsEntry>, name: string)
    ensures WithoutName(WithoutName(entries, name), name) == WithoutName(entries, name)
  {
    var kept := WithoutName(entries, name);
    forall k | 0 <= k < |kept| ensures kept[k].name != name {
      assert kept[k] in kept;
    }
    WithoutAbsentName(kept, name);
  }

  /** The number of entries carrying exactly `name`. */
  function CountNamed(entries: seq<SavedDnsEntry>, name: string): nat {
    if entries == [] then 0
    else (if entries[0].name == name then 1 else 0) + CountNamed(entries[1..], name)
  }

  /** Deleting removes exactly the entries with the name, one list slot each. */
  lemma {:induction false} WithoutNameLength(entries: seq<SavedDnsEntry>, name: string)
    ensures |WithoutName(entries, name)| == |entries| - CountNamed(entries, name)
  {
    if entries != [] {
      WithoutNameLength(entries[1..], name);
    }
  }

  /**
   * Appending an entry under a fresh name and then deleting that name gives
   * back the list as it was.
   */
  lemma AddThenDeleteRestores(entries: seq<SavedDnsEntry>, e: SavedDnsEntry)
    requires forall k :: 0 <= k < |entries| ==> entries[k].name != e.name
    ensures WithoutName(entries + [e], e.name) == entries
  {
    WithoutNameAppend(entries, [e], e.name);
    WithoutAbsentName(entries, e.name);
    assert WithoutName([e], e.name) == [];
  }

  /** `Vec::retain(|e| e.name != name)`: keeps the other entries in order. */
  method Retain(entries: seq<SavedDnsEntry>, name: string) returns (kept: seq<SavedDnsEntry>)
    ensures kept == WithoutName(entries, name)
  {
    kept := [];
    for i := 0 to |entries|
      invariant kept == WithoutName(entries[..i], name)
    {
      WithoutNameAppend(entries[..i], [entries[i]], name);
      assert entries[..i + 1] == entries[..i] + [entries[i]];
      if entries[i].name != name {
        assert WithoutName([entries[i]], name) == [entries[i]];
        kept := kept + [entries[i]];
      } else {
        assert WithoutName([entries[i]], name) == [];
      }
    }
    assert entries[..|entries|] == entries;
  }

  /** The one storage file the application reads and rewrites. */
  class Store {
    var file: FileState

    constructor(initial: FileState)
      ensures file == initial
    {
      file := initial;
    }

    /** Writes `entries` over the file; a failure leaves the file as it was. */
    method SaveDnsEntries(entries: seq<SavedDnsEntry>, outcome: WriteOutcome) returns (r: Outcome)
      modifies this
      ensures r == SaveResult(outcome)
      ensures file == AfterSave(old(file), entries, outcome)
    {
      if outcome.Written? {
        file := Stored(entries);
      }
      r := SaveResult(outcome);
    }

    /** Loads the list, appends `entry` at the end without any duplicate check, and saves. */
    method AddSavedDns(entry: SavedDnsEntry, outcome: WriteOutcome) returns (r: Outcome)
      modifies this
      ensures r == SaveResult(outcome)
      ensures file == AfterSave(old(file), LoadSavedDns(old(file)) + [entry], outcome)
    {
      var entries := LoadSavedDns(file);
      entries := entries + [entry];
      r := SaveDnsEntries(entries, outcome);
    }

    /** Loads the list, drops every entry named exactly `name`, and saves. */
    method DeleteSavedDns(name: string, outcome: WriteOutcome) returns (r: Outcome)
      modifies this
      ensures r == SaveResult(outcome)
      ensures file == AfterSave(old(file), WithoutName(LoadSavedDns(old(file)), name), outcome)
    {
      var entries := LoadSavedDns(file);
      entries := Retain(entries, name);
      r := SaveDnsEntries(entries, outcome);
    }
  }

  /**
   * A successful add stores the loaded list with the entry last, even when
   * an entry of that name is already stored.
   */
  lemma AddAppendsEvenDuplicates(f: FileState, entry: SavedDnsEntry)
    ensures var after := LoadSavedDns(AfterSave(f, LoadSavedDns(f) + [entry], Written));
      && |after| == |LoadSavedDns(f)| + 1
      && after[|after| - 1] == entry
      && after[..|after| - 1] == LoadSavedDns(f)
  {
    var after := LoadSavedDns(f) + [entry];
    assert after[..|after| - 1] == LoadSavedDns(f);
  }

  /** Adding to a damaged file keeps only the new entry: the unreadable content is lost. */
  lemma AddOverDamagedFile(f: FileState, entry: SavedDnsEntry)
    requires !f.Stored?
    ensures LoadSavedDns(AfterSave(f, LoadSavedDns(f) + [entry], Written)) == [entry]
  {
  }

  /** After a successful add of `e` and a successful delete of its name, no stored entry has that name. */
  lemma AddThenDeleteLeavesNoEntryOfThatName(f: FileState, e: SavedDnsEntry)
    ensures var g := AfterSave(f, LoadSavedDns(f) + [e], Written);
      var h := AfterSave(g, WithoutName(LoadSavedDns(g), e.name), Written);
      forall k :: 0 <= k < |LoadSavedDns(h)| ==> LoadSavedDns(h)[k].name != e.name
  {
    var g := AfterSave(f, LoadSavedDns(f) + [e], Written);
    var kept := WithoutName(LoadSavedDns(g), e.name);
    forall k | 0 <= k < |kept| ensures kept[k].name != e.name {
      assert kept[k] in kept;
    }
  }

  /** Names are compared exactly: deleting "home" keeps an entry named "Home". */
  lemma DeleteIsCaseSensitive()
    ensures var e := SavedDnsEntry("Home", "1.1.1.1", "1.0.0.1");
      WithoutName([e], "home") == [e]
  {
    assert "Home" != "home" by {
      assert "Home"[0] != "home"[0];
    }
  }
}
