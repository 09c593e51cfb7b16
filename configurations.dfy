/** The machine-configuration list of the survey (`App.tsx`, lines 172-228):
    the summary shown above the table, and the edits the configuration step
    makes. Every edit returns a new list, as the React handlers do; only
    `DuplicateConfiguration` is written step by step, because the handler
    locates the machine and splices the copy into a fresh array. */
module Configurations {
  import opened ReportTypes
  import opened Text

  // ---------------------------------------------------------------------
  // Field edits
  // ---------------------------------------------------------------------

  /** The editable text columns: every field except `id` and `notes`. */
  datatype ConfigField = Cpu | Ram | Storage | Os | Monitor | Office

  function FieldValue(c: ComputerConfiguration, f: ConfigField): string
  {
    match f
    case Cpu => c.cpu
    case Ram => c.ram
    case Storage => c.storage
    case Os => c.os
    case Monitor => c.monitor
    case Office => c.office
  }

  /** `{ ...config, [field]: value }` */
  function WithField(c: ComputerConfiguration, f: ConfigField, v: string): (r: ComputerConfiguration)
    ensures FieldValue(r, f) == v
    ensures forall g :: g != f ==> FieldValue(r, g) == FieldValue(c, g)
    ensures r.id == c.id && r.notes == c.notes
  {
    match f
    case Cpu => c.(cpu := v)
    case Ram => c.(ram := v)
    case Storage => c.(storage := v)
    case Os => c.(os := v)
    case Monitor => c.(monitor := v)
    case Office => c.(office := v)
  }

  /** handleUpdateConfiguration: sets one field of every machine with the id;
      the list keeps its length and order and no other machine changes. */
  function UpdateConfiguration(configs: seq<ComputerConfiguration>, configId: int, f: ConfigField, v: string)
    : (r: seq<ComputerConfiguration>)
    ensures |r| == |configs|
    ensures forall i :: 0 <= i < |configs| && configs[i].id == configId ==>
      r[i].id == configId && r[i].notes == configs[i].notes && FieldValue(r[i], f) == v
      && forall g :: g != f ==> FieldValue(r[i], g) == FieldValue(configs[i], g)
    ensures forall i :: 0 <= i < |configs| && configs[i].id != configId ==> r[i] == configs[i]
  {
    seq(|configs|, i requires 0 <= i < |configs| =>
      if configs[i].id == configId then WithField(configs[i], f, v) else configs[i])
  }

  /** handleAddNoteToConfiguration: appends `note` to the notes of every
      machine with the id; nothing else changes. */
  function AddNote(configs: seq<ComputerConfiguration>, configId: int, note: string)
    : (r: seq<ComputerConfiguration>)
    ensures |r| == |configs|
    ensures forall i :: 0 <= i < |configs| && configs[i].id == configId ==>
      r[i] == configs[i].(notes := configs[i].notes + [note])
    ensures forall i :: 0 <= i < |configs| && configs[i].id != configId ==> r[i] == configs[i]
  {
    seq(|configs|, i requires 0 <= i < |configs| =>
      if configs[i].id == configId then configs[i].(notes := configs[i].notes + [note]) else configs[i])
  }

  /** `notes.filter((_, index) => index !== k)`: drops the note at position
      `k` when there is one, and keeps the list otherwise. */
  function WithoutIndex(notes: seq<string>, k: int): (r: seq<string>)
    ensures 0 <= k < |notes| ==> r == notes[..k] + notes[k + 1..]
    ensures !(0 <= k < |notes|) ==> r == notes
  {
    if notes == [] then []
    else
      var last := |notes| - 1;
      assert notes == notes[..last] + [notes[last]];
      WithoutIndex(notes[..last], k) + (if last == k then [] else [notes[last]])
  }

  /** handleRemoveNoteFromConfiguration: removes the `noteIndex`-th note of
      every machine with the id; nothing else changes. */
  function RemoveNote(configs: seq<ComputerConfiguration>, configId: int, noteIndex: int)
    : (r: seq<ComputerConfiguration>)
    ensures |r| == |configs|
    ensures forall i :: 0 <= i < |configs| && configs[i].id == configId ==>
      r[i] == configs[i].(notes := WithoutIndex(configs[i].notes, noteIndex))
    ensures forall i :: 0 <= i < |configs| && configs[i].id != configId ==> r[i] == configs[i]
  {
    seq(|configs|, i requires 0 <= i < |configs| =>
      if configs[i].id == configId then configs[i].(notes := WithoutIndex(configs[i].notes, noteIndex))
      else configs[i])
  }

  /** Removing the note just added restores the list, when ids are unique. */
  lemma RemoveNoteUndoesAddNote(configs: seq<ComputerConfiguration>, k: nat, note: string)
    requires UniqueIds(configs) && k < |configs|
    ensures RemoveNote(AddNote(configs, configs[k].id, note), configs[k].id, |configs[k].notes|) == configs
  {
    var id := configs[k].id;
    var added := AddNote(configs, id, note);
    var r := RemoveNote(added, id, |configs[k].notes|);
    forall i | 0 <= i < |configs| ensures r[i] == configs[i] {
      if configs[i].id == id {
        assert i == k;
        var ns := configs[k].notes;
        assert (ns + [note])[..|ns|] == ns;
      }
    }
  }

  // ---------------------------------------------------------------------
  // Adding, duplicating and deleting machines
  // ---------------------------------------------------------------------

  /** handleAddBlankConfiguration's new row: no hardware filled in, the
      default operating system and office suite, and no faults. */
  function BlankConfiguration(freshId: int): (c: ComputerConfiguration)
    ensures c.id == freshId && c.notes == []
  {
    ComputerConfiguration(freshId, "", "", "", "Win10", "", "Office19", [])
  }

  /** handleAddBlankConfiguration: the list gains one working machine at the end. */
  function AddBlankConfiguration(configs: seq<ComputerConfiguration>, freshId: int)
    : (r: seq<ComputerConfiguration>)
    ensures |r| == |configs| + 1 && r[..|configs|] == configs
    ensures r[|configs|] == BlankConfiguration(freshId)
  {
    configs + [BlankConfiguration(freshId)]
  }

  /** handleDeleteConfiguration: `filter(config => config.id !== configId)`. */
  function DeleteConfiguration(configs: seq<ComputerConfiguration>, configId: int)
    : (r: seq<ComputerConfiguration>)
    ensures |r| <= |configs|
  {
    if configs == [] then []
    else
      var rest := DeleteConfiguration(configs[1..], configId);
      if configs[0].id == configId then rest else [configs[0]] + rest
  }

  /** Deletion drops every machine with the id and keeps all the others;
      with no such machine the list is unchanged. */
  lemma {:induction false} DeleteConfigurationSpec(configs: seq<ComputerConfiguration>, configId: int)
    ensures var r := DeleteConfiguration(configs, configId);
      && !HasId(r, configId)
      && (forall c :: c in configs && c.id != configId ==> c in r)
      && (forall c :: c in r ==> c in configs)
      && (!HasId(configs, configId) ==> r == configs)
  {
    if configs != [] {
      var rest := DeleteConfiguration(configs[1..], configId);
      DeleteConfigurationSpec(configs[1..], configId);
      assert configs == [configs[0]] + configs[1..];
      if !HasId(configs, configId) {
        assert !HasId(configs[1..], configId) by {
          forall i | 0 <= i < |configs[1..]| ensures configs[1..][i].id != configId {
            assert configs[1..][i] == configs[i + 1];
          }
        }
        assert configs[0].id != configId;
      }
      if configs[0].id != configId {
        var r := [configs[0]] + rest;
        forall i | 0 <= i < |r| ensures r[i].id != configId {
          if i > 0 {
            assert r[i] == rest[i - 1];
          }
        }
      }
    }
  }

  lemma {:induction false} DeleteAppend(a: seq<ComputerConfiguration>, b: seq<ComputerConfiguration>, configId: int)
    ensures DeleteConfiguration(a + b, configId) == DeleteConfiguration(a, configId) + DeleteConfiguration(b, configId)
  {
    if a != [] {
      assert (a + b)[1..] == a[1..] + b;
      DeleteAppend(a[1..], b, configId);
    } else {
      assert a + b == b;
    }
  }

  /** Deleting a freshly added blank machine restores the list. */
  lemma DeleteUndoesAddBlank(configs: seq<ComputerConfiguration>, freshId: int)
    requires !HasId(configs, freshId)
    ensures DeleteConfiguration(AddBlankConfiguration(configs, freshId), freshId) == configs
  {
    DeleteConfigurationSpec(configs, freshId);
    DeleteAppend(configs, [BlankConfiguration(freshId)], freshId);
  }

  /** `findIndex(c => c.id === configId)`: the first position holding the
      id, or -1 when no machine has it. */
  function FindIndex(configs: seq<ComputerConfiguration>, configId: int): (k: int)
    ensures -1 <= k < |configs|
    ensures k == -1 <==> !HasId(configs, configId)
    ensures k >= 0 ==> configs[k].id == configId && forall j :: 0 <= j < k ==> configs[j].id != configId
  {
    if configs == [] then -1
    else if configs[0].id == configId then 0
    else
      var k := FindIndex(configs[1..], configId);
      assert forall j :: 1 <= j < |configs| ==> configs[j] == configs[1..][j - 1];
      if k == -1 then -1 else k + 1
  }

  /** What handleDuplicateConfiguration produces: a copy of the first machine
      with the id, under `freshId`, placed right after it; the list is
      unchanged when no machine has the id. */
  function Duplicated(configs: seq<ComputerConfiguration>, configId: int, freshId: int)
    : (r: seq<ComputerConfiguration>)
    ensures !HasId(configs, configId) ==> r == configs
    ensures HasId(configs, configId) ==>
      var k := FindIndex(configs, configId);
      && |r| == |configs| + 1
      && r[..k + 1] == configs[..k + 1]
      && r[k + 1] == configs[k].(id := freshId)
      && r[k + 2..] == configs[k + 1..]
  {
    var k := FindIndex(configs, configId);
    if k < 0 then configs else configs[..k + 1] + [configs[k].(id := freshId)] + configs[k + 1..]
  }

  /** handleDuplicateConfiguration: looks the machine up, then splices its
      copy into a copy of the list. */
  method DuplicateConfiguration(configs: seq<ComputerConfiguration>, configId: int, freshId: int)
    returns (result: seq<ComputerConfiguration>)
    ensures result == Duplicated(configs, configId, freshId)
  {
    var index := 0;
    while index < |configs| && configs[index].id != configId
      invariant 0 <= index <= |configs|
      invariant forall j :: 0 <= j < index ==> configs[j].id != configId
    {
      index := index + 1;
    }
    if index == |configs| {
      result := configs;
      return;
    }
    var copy := configs[index].(id := freshId);
    result := configs[..index + 1] + [copy] + configs[index + 1..];
  }

  /** Deleting the copy just made restores the list, when its id is new. */
  lemma DeleteUndoesDuplicate(configs: seq<ComputerConfiguration>, configId: int, freshId: int)
    requires !HasId(configs, freshId)
    ensures DeleteConfiguration(Duplicated(configs, configId, freshId), freshId) == configs
  {
    var k := FindIndex(configs, configId);
    if k < 0 {
      DeleteConfigurationSpec(configs, freshId);
    } else {
      var copy := configs[k].(id := freshId);
      var before, after := configs[..k + 1], configs[k + 1..];
      assert configs == before + after;
      DuplicatedSplits(configs, configId, freshId);
      DeleteAroundCopy(before, copy, after);
    }
  }

  lemma DuplicatedSplits(configs: seq<ComputerConfiguration>, configId: int, freshId: int)
    requires FindIndex(configs, configId) >= 0
    ensures var k := FindIndex(configs, configId);
      Duplicated(configs, configId, freshId) == configs[..k + 1] + [configs[k].(id := freshId)] + configs[k + 1..]
  {
  }

  lemma DeleteAroundCopy(before: seq<ComputerConfiguration>, copy: ComputerConfiguration, after: seq<ComputerConfiguration>)
    requires !HasId(before + after, copy.id)
    ensures DeleteConfiguration(before + [copy] + after, copy.id) == before + after
  {
    var id := copy.id;
    assert !HasId(before, id) by {
      assert forall i :: 0 <= i < |before| ==> before[i] == (before + after)[i];
    }
    assert !HasId(after, id) by {
      assert forall i :: 0 <= i < |after| ==> after[i] == (before + after)[|before| + i];
    }
    DeleteConfigurationSpec(before, id);
    DeleteConfigurationSpec(after, id);
    DeleteAppend(before + [copy], after, id);
    DeleteAppend(before, [copy], id);
  }

  // ---------------------------------------------------------------------
  // computerStats
  // ---------------------------------------------------------------------

  datatype ComputerStats = ComputerStats(total: nat, working: int, faulty: nat, noteLabels: string)

  predicate IsFaulty(c: ComputerConfiguration) { |c.notes| > 0 }

  /** `configurations.filter(c => c.notes.length > 0)` */
  function FaultyConfigs(configs: seq<ComputerConfiguration>): (r: seq<ComputerConfiguration>)
    ensures |r| <= |configs|
    ensures forall c :: c in r <==> c in configs && IsFaulty(c)
  {
    if configs == [] then []
    else
      var rest := FaultyConfigs(configs[1..]);
      assert forall i :: 1 <= i < |configs| ==> configs[i] == configs[1..][i - 1];
      if IsFaulty(configs[0]) then [configs[0]] + rest else rest
  }

  /** `flatMap(c => c.notes)` */
  function FlatNotes(configs: seq<ComputerConfiguration>): seq<string>
  {
    if configs == [] then [] else configs[0].notes + FlatNotes(configs[1..])
  }

  /** Only faulty machines carry notes, so the notes of the faulty ones are
      the notes of all machines. */
  lemma {:induction false} FaultyNotesAreAllNotes(configs: seq<ComputerConfiguration>)
    ensures FlatNotes(FaultyConfigs(configs)) == FlatNotes(configs)
  {
    if configs != [] {
      var tail := FaultyConfigs(configs[1..]);
      FaultyNotesAreAllNotes(configs[1..]);
      if IsFaulty(configs[0]) {
        var f := [configs[0]] + tail;
        assert f[0] == configs[0] && f[1..] == tail;
        assert FlatNotes(f) == configs[0].notes + FlatNotes(tail);
      } else {
        assert configs[0].notes == [];
        assert FlatNotes(configs) == [] + FlatNotes(configs[1..]);
      }
    }
  }

  lemma {:induction false} NoFaultyIffNoNotes(configs: seq<ComputerConfiguration>)
    ensures FaultyConfigs(configs) == [] <==> forall i :: 0 <= i < |configs| ==> configs[i].notes == []
  {
    if configs != [] {
      NoFaultyIffNoNotes(configs[1..]);
      assert forall i :: 1 <= i < |configs| ==> configs[i] == configs[1..][i - 1];
    }
  }

  /** computerStats: the machine count, how many work, how many have faults,
      and the distinct fault notes in order of first appearance, joined by
      ", ". */
  function Stats(configs: seq<ComputerConfiguration>): (s: ComputerStats)
    ensures s.total == |configs|
    ensures 0 <= s.working && s.working + s.faulty == s.total
    ensures s.faulty == |FaultyConfigs(configs)|
    ensures s.faulty == |set i | 0 <= i < |configs| && configs[i].notes != []|
    ensures s.faulty == 0 <==> forall i :: 0 <= i < |configs| ==> configs[i].notes == []
    ensures s.noteLabels == Join(Dedup(FlatNotes(configs)), ", ")
  {
    var faultyConfigs := FaultyConfigs(configs);
    FaultyNotesAreAllNotes(configs);
    NoFaultyIffNoNotes(configs);
    FaultyCountByPosition(configs, |configs|);
    assert configs[..|configs|] == configs;
    var total := |configs|;
    var faulty := |faultyConfigs|;
    ComputerStats(total, total - faulty, faulty, Join(Dedup(FlatNotes(faultyConfigs)), ", "))
  }

  /** Two lists whose machines carry the same notes position by position
      have the same summary. */
  lemma {:induction false} SameNotesSameStats(a: seq<ComputerConfiguration>, b: seq<ComputerConfiguration>)
    requires |a| == |b| && forall i :: 0 <= i < |a| ==> a[i].notes == b[i].notes
    ensures Stats(a) == Stats(b)
  {
    SameNotesSameFlatNotes(a, b);
    SameNotesSameFaultyCount(a, b);
  }

  lemma {:induction false} SameNotesSameFlatNotes(a: seq<ComputerConfiguration>, b: seq<ComputerConfiguration>)
    requires |a| == |b| && forall i :: 0 <= i < |a| ==> a[i].notes == b[i].notes
    ensures FlatNotes(a) == FlatNotes(b)
  {
    if a != [] {
      assert forall i :: 0 <= i < |a| - 1 ==> a[1..][i] == a[i + 1] && b[1..][i] == b[i + 1];
      SameNotesSameFlatNotes(a[1..], b[1..]);
    }
  }

  lemma {:induction false} SameNotesSameFaultyCount(a: seq<ComputerConfiguration>, b: seq<ComputerConfiguration>)
    requires |a| == |b| && forall i :: 0 <= i < |a| ==> a[i].notes == b[i].notes
    ensures |FaultyConfigs(a)| == |FaultyConfigs(b)|
  {
    if a != [] {
      assert forall i :: 0 <= i < |a| - 1 ==> a[1..][i] == a[i + 1] && b[1..][i] == b[i + 1];
      SameNotesSameFaultyCount(a[1..], b[1..]);
    }
  }

  /** Editing a hardware field never changes the summary. */
  lemma UpdateKeepsStats(configs: seq<ComputerConfiguration>, configId: int, f: ConfigField, v: string)
    ensures Stats(UpdateConfiguration(configs, configId, f, v)) == Stats(configs)
  {
    SameNotesSameStats(UpdateConfiguration(configs, configId, f, v), configs);
  }

  /** Adding a blank machine adds one working machine and no fault note. */
  lemma {:induction false} AddBlankStats(configs: seq<ComputerConfiguration>, freshId: int)
    ensures var s := Stats(configs); var t := Stats(AddBlankConfiguration(configs, freshId));
      t == s.(total := s.total + 1, working := s.working + 1)
  {
    var r := AddBlankConfiguration(configs, freshId);
    FaultyAppend(configs, BlankConfiguration(freshId));
    FlatNotesAppend(configs, [BlankConfiguration(freshId)]);
    assert FlatNotes([BlankConfiguration(freshId)]) == [];
    assert FlatNotes(configs) + [] == FlatNotes(configs);
  }

  /** A machine appended to the list joins the faulty ones at the end
      exactly when it has notes. */
  lemma {:induction false} FaultyAppend(configs: seq<ComputerConfiguration>, c: ComputerConfiguration)
    ensures FaultyConfigs(configs + [c]) == FaultyConfigs(configs) + (if IsFaulty(c) then [c] else [])
  {
    if configs == [] {
      assert [] + [c] == [c];
    } else {
      assert (configs + [c])[1..] == configs[1..] + [c];
      FaultyAppend(configs[1..], c);
    }
  }

  /** The faulty machines counted by position: the filter keeps one entry
      for every position holding a machine with notes. */
  lemma {:induction false} FaultyCountByPosition(configs: seq<ComputerConfiguration>, n: nat)
    requires n <= |configs|
    ensures |FaultyConfigs(configs[..n])| == |set i | 0 <= i < n && configs[i].notes != []|
    decreases n
  {
    if n > 0 {
      FaultyCountByPosition(configs, n - 1);
      var c := configs[n - 1];
      assert configs[..n] == configs[..n - 1] + [c];
      FaultyAppend(configs[..n - 1], c);
      FaultyPositionsStep(configs, n);
    }
  }

  lemma FaultyPositionsStep(configs: seq<ComputerConfiguration>, n: nat)
    requires 0 < n <= |configs|
    ensures |set i | 0 <= i < n && configs[i].notes != []|
      == |set i | 0 <= i < n - 1 && configs[i].notes != []| + (if IsFaulty(configs[n - 1]) then 1 else 0)
  {
    var before := set i | 0 <= i < n - 1 && configs[i].notes != [];
    var upTo := set i | 0 <= i < n && configs[i].notes != [];
    if IsFaulty(configs[n - 1]) {
      assert upTo == before + {n - 1};
    } else {
      assert upTo == before;
    }
  }

  lemma {:induction false} FlatNotesAppend(a: seq<ComputerConfiguration>, b: seq<ComputerConfiguration>)
    ensures FlatNotes(a + b) == FlatNotes(a) + FlatNotes(b)
  {
    if a == [] {
      assert a + b == b;
    } else {
      assert (a + b)[1..] == a[1..] + b;
      FlatNotesAppend(a[1..], b);
    }
  }

  /** The number of machines with the id that had no fault yet. */
  function HealthyWithId(configs: seq<ComputerConfiguration>, configId: int): nat
  {
    if configs == [] then 0
    else
      var here := if configs[0].id == configId && configs[0].notes == [] then 1 else 0;
      here + HealthyWithId(configs[1..], configId)
  }

  /** Adding a note turns exactly the healthy machines with the id into
      faulty ones; the total does not change. */
  lemma {:induction false} AddNoteFaultyCount(configs: seq<ComputerConfiguration>, configId: int, note: string)
    ensures var s := Stats(configs); var t := Stats(AddNote(configs, configId, note));
      t.total == s.total && t.faulty == s.faulty + HealthyWithId(configs, configId)
  {
    if configs != [] {
      var r := AddNote(configs, configId, note);
      assert r[1..] == AddNote(configs[1..], configId, note);
      AddNoteFaultyCount(configs[1..], configId, note);
    }
  }
}
