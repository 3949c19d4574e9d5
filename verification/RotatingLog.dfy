/** The bounded diagnostic log: one current file and a number of backups, rotated by single file operations. */
module RotatingLog {
  import opened Options

  const MAX_LOG_BYTES: nat := 1_048_576

  /** One encoded event: its identity, if it has one, and the length of its line. */
  datatype Record = Record(id: Option<nat>, size: nat)

  /** What a log file holds. */
  type Content = seq<Record>

  /** The current file comes first, then the backups from the newest to the oldest; None is an absent file. */
  type Files = seq<Option<Content>>

  datatype LogError = MaxBytesInvalid | RecordExceedsLimit | IoFailed

  function ContentOf(file: Option<Content>): Content {
    if file.Some? then file.value else []
  }

  function Bytes(content: Content): nat {
    if content == [] then 0 else Bytes(content[..|content| - 1]) + content[|content| - 1].size
  }

  /** Everything retained, oldest first. */
  function Retained(files: Files): Content {
    if files == [] then [] else Retained(files[1..]) + ContentOf(files[0])
  }

  ghost predicate IsSuffix(tail: Content, whole: Content) {
    |tail| <= |whole| && whole[|whole| - |tail|..] == tail
  }

  ghost predicate UniqueIds(content: Content) {
    forall i, j :: 0 <= i < j < |content| && content[i].id.Some? ==> content[i].id != content[j].id
  }

  ghost predicate WithinLimit(files: Files, maxBytes: nat) {
    forall i :: 0 <= i < |files| ==> Bytes(ContentOf(files[i])) <= maxBytes
  }

  predicate HasId(content: Content, id: nat) {
    exists i :: 0 <= i < |content| && content[i].id == Some(id)
  }

  lemma SuffixTransitive(a: Content, b: Content, c: Content)
    requires IsSuffix(a, b) && IsSuffix(b, c)
    ensures IsSuffix(a, c)
  {
    assert c[|c| - |a|..] == b[|b| - |a|..];
  }

  lemma SuffixUnique(tail: Content, whole: Content)
    requires IsSuffix(tail, whole) && UniqueIds(whole)
    ensures UniqueIds(tail)
  {
    var d := |whole| - |tail|;
    forall i, j | 0 <= i < j < |tail| && tail[i].id.Some?
      ensures tail[i].id != tail[j].id
    {
      assert tail[i] == whole[d + i] && tail[j] == whole[d + j];
    }
  }

  lemma SuffixSnoc(tail: Content, whole: Content, record: Record)
    requires IsSuffix(tail, whole)
    ensures IsSuffix(tail + [record], whole + [record])
  {
    assert (whole + [record])[|whole| - |tail|..] == whole[|whole| - |tail|..] + [record];
  }

  // ---------- single file operations ----------

  /** Unlink the oldest backup. */
  function DropOldest(files: Files): Files
    requires files != []
  {
    files[|files| - 1 := None]
  }

  /** Rename file `i` to the next older place, over whatever is there. */
  function MoveOlder(files: Files, i: nat): Files
    requires i + 1 < |files|
  {
    if files[i].Some? then files[i + 1 := files[i]][i := None] else files
  }

  /** Append a record to the current file. */
  function Written(files: Files, record: Record): Files
    requires files != []
  {
    files[0 := Some(ContentOf(files[0]) + [record])]
  }

  lemma SuffixAppend(tail: Content, whole: Content, more: Content)
    requires IsSuffix(tail, whole)
    ensures IsSuffix(tail + more, whole + more)
  {
    assert (whole + more)[|whole| - |tail|..] == whole[|whole| - |tail|..] + more;
  }

  /** Losing the oldest file leaves a suffix. */
  lemma {:induction false} DropOldestSuffix(files: Files)
    requires files != []
    ensures IsSuffix(Retained(DropOldest(files)), Retained(files))
  {
    var dropped := DropOldest(files);
    if |files| == 1 {
      assert Retained(dropped) == [];
    } else {
      DropOldestSuffix(files[1..]);
      assert dropped[1..] == DropOldest(files[1..]);
      SuffixAppend(Retained(dropped[1..]), Retained(files[1..]), ContentOf(files[0]));
    }
  }

  lemma {:induction false} DropOldestRetains(files: Files)
    requires files != []
    ensures Retained(DropOldest(files)) == Retained(files[..|files| - 1])
  {
    if |files| > 1 {
      DropOldestRetains(files[1..]);
      assert DropOldest(files)[1..] == DropOldest(files[1..]);
      assert files[..|files| - 1][1..] == files[1..][..|files| - 2];
    }
  }

  /** Moving a file to an empty place keeps everything in order. */
  lemma {:induction false} MoveKeeps(files: Files, i: nat)
    requires i + 1 < |files| && files[i + 1].None?
    ensures Retained(MoveOlder(files, i)) == Retained(files)
  {
    if files[i].Some? {
      var moved := MoveOlder(files, i);
      if i == 0 {
        assert moved[1..][1..] == files[1..][1..];
        assert Retained(moved) == Retained(moved[1..]) == Retained(files[1..][1..]) + files[0].value;
        assert Retained(files[1..]) == Retained(files[1..][1..]);
      } else {
        assert moved[1..] == MoveOlder(files[1..], i - 1);
        MoveKeeps(files[1..], i - 1);
      }
    }
  }

  // ---------- the log ----------

  /** The retained records are the latest ones ever appended, without repeated identities, and every file is small. */
  ghost predicate LogOk(files: Files, history: Content, maxBytes: nat) {
    IsSuffix(Retained(files), history) && UniqueIds(Retained(files)) && WithinLimit(files, maxBytes)
  }

  lemma DropKeepsLog(files: Files, history: Content, maxBytes: nat)
    requires files != [] && LogOk(files, history, maxBytes)
    ensures LogOk(DropOldest(files), history, maxBytes)
  {
    DropOldestSuffix(files);
    SuffixTransitive(Retained(DropOldest(files)), Retained(files), history);
    SuffixUnique(Retained(DropOldest(files)), Retained(files));
  }

  lemma MoveKeepsLog(files: Files, i: nat, history: Content, maxBytes: nat)
    requires i + 1 < |files| && files[i + 1].None? && LogOk(files, history, maxBytes)
    ensures LogOk(MoveOlder(files, i), history, maxBytes)
  {
    MoveKeeps(files, i);
  }

  /** The files of a rotation whose empty place is `hole`: the older ones have moved by one place, and the oldest is
      gone. */
  function Shifted(before: Files, hole: nat): Files
    requires hole < |before|
  {
    before[..hole] + [None] + before[hole..|before| - 1]
  }

  lemma ShiftStarts(files: Files)
    requires files != []
    ensures DropOldest(files) == Shifted(files, |files| - 1)
  {
  }

  /** One move of a rotation moves the empty place towards the current file. */
  lemma ShiftStep(before: Files, index: nat)
    requires index + 1 < |before|
    ensures MoveOlder(Shifted(before, index + 1), index) == Shifted(before, index)
    ensures Shifted(before, index + 1)[index + 1].None?
  {
    var (files, shifted) := (Shifted(before, index + 1), Shifted(before, index));
    forall k | 0 <= k < |files|
      ensures MoveOlder(files, index)[k] == shifted[k]
    {
    }
  }

  /** So it keeps the log and what is retained. */
  lemma ShiftKeepsLog(before: Files, index: nat, history: Content, maxBytes: nat)
    requires index + 1 < |before| && LogOk(Shifted(before, index + 1), history, maxBytes)
    ensures LogOk(Shifted(before, index), history, maxBytes)
    ensures Retained(Shifted(before, index)) == Retained(Shifted(before, index + 1))
  {
    ShiftStep(before, index);
    MoveKeeps(Shifted(before, index + 1), index);
    MoveKeepsLog(Shifted(before, index + 1), index, history, maxBytes);
  }

  /** Writing a new record to the current file after the rest has been dropped to a suffix. */
  lemma WriteKeepsLog(files: Files, history: Content, maxBytes: nat, before: Content, record: Record)
    requires files != [] && LogOk(files, history, maxBytes) && IsSuffix(Retained(files), before)
    requires record.id.Some? ==> !HasId(before, record.id.value)
    requires Bytes(ContentOf(files[0])) + record.size <= maxBytes
    ensures LogOk(Written(files, record), history + [record], maxBytes)
    ensures IsSuffix(Retained(Written(files, record)), before + [record])
  {
    var written := Written(files, record);
    SuffixUniqueWithout(Retained(files), before, record);
    WriteCurrent(files, record);
    SuffixSnoc(Retained(files), before, record);
    SuffixSnoc(Retained(files), history, record);
    forall i | 0 <= i < |written|
      ensures Bytes(ContentOf(written[i])) <= maxBytes
    {
      assert i > 0 ==> written[i] == files[i];
    }
  }

  /** The current file has room for the record. */
  predicate Fits(files: Files, record: Record, maxBytes: nat) {
    files != [] && Bytes(ContentOf(files[0])) + record.size <= maxBytes
  }

  /** The files with room for the record: they are rotated exactly when the current one has none. */
  function WithRoom(files: Files, record: Record, maxBytes: nat): (r: Files)
    requires files != []
    ensures |r| == |files|
  {
    if Fits(files, record, maxBytes) then files else Shifted(files, 0)
  }

  class DiagnosticLog {
    const maxBytes: nat
    var files: Files
    /** Everything ever appended. */
    ghost var history: Content

    ghost predicate Valid()
      reads this
    {
      maxBytes <= MAX_LOG_BYTES && |files| >= 2 && LogOk(files, history, maxBytes)
    }

    constructor (backups: nat, maxBytes: nat)
      requires backups >= 1 && maxBytes <= MAX_LOG_BYTES
      ensures Valid() && history == [] && |files| == backups + 1 && this.maxBytes == maxBytes
    {
      this.maxBytes := maxBytes;
      var empty: Files := seq(backups + 1, _ => None);
      NothingRetained(empty);
      files := empty;
      history := [];
    }

    /** Rotate, one file operation at a time; the last move is that of the current file. `budget` operations succeed
        and the next one fails, so every intermediate state is a state in which this can end. */
    method Rotate(budget: nat) returns (completed: bool)
      requires Valid() && files[0].Some?
      modifies this`files
      ensures Valid() && |files| == |old(files)|
      ensures IsSuffix(Retained(files), Retained(old(files)))
      ensures completed <==> budget >= |files|
      ensures completed ==> files == Shifted(old(files), 0)
      ensures !completed ==>
        Retained(files) == Retained(old(files)) || Retained(files) == Retained(old(files)[..|files| - 1])
    {
      if budget == 0 {
        return false;
      }
      DropOldestSuffix(files);
      DropOldestRetains(files);
      DropKeepsLog(files, history, maxBytes);
      ShiftStarts(files);
      ghost var before, kept := files, Retained(DropOldest(files));
      files := DropOldest(files);
      var done := 1;
      var index := |files| - 2;
      while index >= 0
        invariant -1 <= index <= |before| - 2
        invariant done == |before| - 1 - index && done <= budget
        invariant files == Shifted(before, index + 1)
        invariant LogOk(files, history, maxBytes) && Retained(files) == kept
      {
        if done == budget {
          return false;
        }
        ShiftStep(before, index);
        ShiftKeepsLog(before, index, history, maxBytes);
        files := MoveOlder(files, index);
        done := done + 1;
        index := index - 1;
      }
      return true;
    }

    /** Whether some retained record has the identity. */
    method ContainsEventId(id: nat) returns (found: bool)
      ensures found <==> HasId(Retained(files), id)
    {
      found := false;
      var i := |files|;
      assert files[i..] == [];
      while i > 0
        invariant 0 <= i <= |files|
        invariant found <==> HasId(Retained(files[i..]), id)
      {
        i := i - 1;
        assert files[i..][1..] == files[i + 1..];
        HasIdConcat(Retained(files[i + 1..]), ContentOf(files[i]), id);
        found := found || HasId(ContentOf(files[i]), id);
      }
      assert files[0..] == files;
    }

    /** Append a record once. `budget` limits the file operations that succeed. */
    method AppendOnce(record: Record, budget: nat) returns (result: Result<bool, LogError>)
      requires Valid()
      modifies this`files, this`history
      ensures Valid() && |files| == |old(files)|
      ensures maxBytes < 1 <==> result == Err(MaxBytesInvalid)
      ensures maxBytes >= 1 ==> (record.size > maxBytes <==> result == Err(RecordExceedsLimit))
      ensures maxBytes >= 1 && record.size <= maxBytes && budget > |old(files)| ==> result.Ok?
      ensures result.Ok? ==>
        (result.value <==> !(record.id.Some? && HasId(Retained(old(files)), record.id.value)))
      ensures result.Err? || !result.value ==>
        history == old(history) && IsSuffix(Retained(files), Retained(old(files)))
      ensures result.Ok? && !result.value ==>
        files == old(files) && record.id.Some? && HasId(Retained(files), record.id.value)
      ensures result.Ok? && result.value ==>
        files == Written(WithRoom(old(files), record, maxBytes), record)
      ensures result.Ok? && result.value ==>
        history == old(history) + [record] && IsSuffix(Retained(files), Retained(old(files)) + [record])
        && files[0].Some? && files[0].value != [] && files[0].value[|files[0].value| - 1] == record
    {
      if maxBytes < 1 {
        return Err(MaxBytesInvalid);
      }
      if record.size > maxBytes {
        return Err(RecordExceedsLimit);
      }
      if record.id.Some? {
        var found := ContainsEventId(record.id.value);
        if found {
          return Ok(false);
        }
      }
      var written := WriteNew(record, budget);
      if written {
        WrittenLast(WithRoom(old(files), record, maxBytes), record);
      }
      return if written then Ok(true) else Err(IoFailed);
    }

    /** Rotate if there is no room; the result is how many operations are left, 0 when they ran out. */
    method MakeRoom(record: Record, budget: nat) returns (left: nat)
      requires Valid() && record.size <= maxBytes
      modifies this`files
      ensures Valid() && |files| == |old(files)|
      ensures left > 0 ==> files == WithRoom(old(files), record, maxBytes) && Fits(files, record, maxBytes)
      ensures budget > |old(files)| ==> left > 0
      ensures IsSuffix(Retained(files), Retained(old(files)))
      ensures Fits(old(files), record, maxBytes) ==> files == old(files)
    {
      if Fits(files, record, maxBytes) {
        return budget;
      }
      assert files[0].Some?;
      var rotated := Rotate(budget);
      if !rotated {
        return 0;
      }
      return budget - |files|;
    }

    /** Append a record that is not there yet, after a rotation when the current file would grow too large. */
    method WriteNew(record: Record, budget: nat) returns (written: bool)
      requires Valid() && record.size <= maxBytes
      requires record.id.Some? ==> !HasId(Retained(files), record.id.value)
      modifies this`files, this`history
      ensures Valid() && |files| == |old(files)|
      ensures budget > |old(files)| ==> written
      ensures !written ==> history == old(history) && IsSuffix(Retained(files), Retained(old(files)))
      ensures written ==>
        files == Written(WithRoom(old(files), record, maxBytes), record)
      ensures !written && Fits(old(files), record, maxBytes) ==> files == old(files)
      ensures written ==>
        history == old(history) + [record] && IsSuffix(Retained(files), Retained(old(files)) + [record])
    {
      ghost var before := Retained(files);
      var left := MakeRoom(record, budget);
      if left == 0 {
        return false;
      }
      WriteKeepsLog(files, history, maxBytes, before, record);
      files := Written(files, record);
      history := history + [record];
      return true;
    }
  }

  lemma {:induction false} NothingRetained(files: Files)
    requires forall i :: 0 <= i < |files| ==> files[i] == None
    ensures Retained(files) == []
  {
    if files != [] {
      NothingRetained(files[1..]);
    }
  }

  lemma HasIdConcat(a: Content, b: Content, id: nat)
    ensures HasId(a + b, id) <==> HasId(a, id) || HasId(b, id)
  {
    if i :| 0 <= i < |a| && a[i].id == Some(id) {
      assert (a + b)[i].id == Some(id);
    }
    if i :| 0 <= i < |b| && b[i].id == Some(id) {
      assert (a + b)[|a| + i].id == Some(id);
    }
  }

  lemma WrittenLast(files: Files, record: Record)
    requires files != []
    ensures
      var current := Written(files, record)[0];
      current.Some? && current.value != [] && current.value[|current.value| - 1] == record
  {
  }

  /** Writing the current file adds the record after everything retained. */
  lemma WriteCurrent(files: Files, record: Record)
    requires files != []
    ensures Retained(Written(files, record)) == Retained(files) + [record]
    ensures Bytes(ContentOf(Written(files, record)[0])) == Bytes(ContentOf(files[0])) + record.size
  {
    var existing := ContentOf(files[0]);
    assert Written(files, record)[1..] == files[1..];
    assert (existing + [record])[..|existing|] == existing;
  }

  lemma SuffixUniqueWithout(tail: Content, whole: Content, record: Record)
    requires IsSuffix(tail, whole) && UniqueIds(tail)
    requires record.id.Some? ==> !HasId(whole, record.id.value)
    ensures UniqueIds(tail + [record])
  {
    var d := |whole| - |tail|;
    forall i | 0 <= i < |tail| && tail[i].id.Some?
      ensures tail[i].id != record.id
    {
      assert tail[i] == whole[d + i];
    }
  }
}
