/** The store of configuration documents: a map in memory and its snapshot on disk. */
module ConfigStore {
  import opened Wrappers
  import opened Text
  import opened Config

  class Store {
    var data: map<Key, Doc>
    var disk: map<Key, Doc>

    /** Defaults overlaid with what the file held; an unreadable file holds nothing. */
    constructor (defaults: map<Key, Doc>, file: map<Key, Doc>)
      ensures data == defaults + file && disk == data
    {
      data, disk := map[], map[];
      new;
      Overlay(defaults);
      Overlay(file);
      Save();
    }

    /** Copies every entry over the map in memory. */
    method Overlay(entries: map<Key, Doc>)
      modifies this`data
      ensures data == old(data) + entries
    {
      var left := entries.Keys;
      while left != {}
        invariant left <= entries.Keys
        invariant data == old(data) + map k | k in entries && k !in left :: entries[k]
        decreases left
      {
        var k :| k in left;
        data := data[k := entries[k]];
        left := left - {k};
      }
      assert entries == map k | k in entries && k !in left :: entries[k];
    }

    method Save()
      modifies this`disk
      ensures disk == data
    {
      var snapshot: map<Key, Doc> := map[];
      var left := data.Keys;
      while left != {}
        invariant left <= data.Keys
        invariant snapshot == map k | k in data && k !in left :: data[k]
        decreases left
      {
        var k :| k in left;
        snapshot := snapshot[k := data[k]];
        left := left - {k};
      }
      assert data == map k | k in data && k !in left :: data[k];
      disk := snapshot;
    }

    method Get(key: string) returns (val: Doc, ok: bool)
      ensures ok == (!Blank(key) && KeyOf(TrimSpace(key)) in data)
      ensures val == if ok then data[KeyOf(TrimSpace(key))] else Text("")
    {
      var k := TrimSpace(key);
      if k == "" || KeyOf(k) !in data {
        return Text(""), false;
      }
      return data[KeyOf(k)], true;
    }

    method Set(key: string, val: Doc) returns (ok: bool)
      modifies this
      ensures ok == !Blank(key)
      ensures data == if ok then old(data)[KeyOf(TrimSpace(key)) := val] else old(data)
      ensures disk == if ok then data else old(disk)
    {
      var k := TrimSpace(key);
      if k == "" {
        return false;
      }
      data := data[KeyOf(k) := val];
      Save();
      return true;
    }
  }

  predicate IsKnown(key: Key) {
    !key.OtherKey?
  }

  lemma KeysDiffer()
    ensures |KeyText(BindingsKey)| == 21 && |KeyText(SettingsKey)| == 21 && |KeyText(VisibilityKey)| == 26
    ensures |KeyText(NoBatteryKey)| == 32 && |KeyText(TopicsKey)| == 18
    ensures KeyText(BindingsKey)[8] == 'b' && KeyText(SettingsKey)[8] == 's'
  {
  }

  lemma KnownKeyIsTrimmed(key: Key)
    requires IsKnown(key)
    ensures Trimmed(KeyText(key)) && KeyText(key) != ""
  {
    var s := KeyText(key);
    assert (s[0] == 'm' || s[0] == 'n') && (s[|s| - 1] == 'n' || s[|s| - 1] == 't' || s[|s| - 1] == 'e');
    PlainEndsAreTrimmed(s);
  }

  lemma KnownKeyIsFound(key: Key)
    requires IsKnown(key)
    ensures KeyOf(KeyText(key)) == key
  {
    KeysDiffer();
    hide KeyText;
  }

  /** The runtime's own keys survive trimming and stand for themselves. */
  lemma KnownKeyIsItself(key: Key)
    requires IsKnown(key)
    ensures TrimSpace(KeyText(key)) == KeyText(key) != "" && KeyOf(KeyText(key)) == key
  {
    hide KeyText, Trimmed;
    KnownKeyIsTrimmed(key);
    KnownKeyIsFound(key);
  }
}
