/**
 * The row-to-map rule that both guest loaders share: the first row is a
 * header and is skipped; a row counts only when its name cell and its table
 * cell are both non-empty; the name is the key as it stands, the table cell is
 * trimmed; a later row with the same name overwrites an earlier one.
 */
module GuestRows {
  import opened JsString

  /** The first two cells of one row; a missing cell (`undefined`) is read as the empty string, which is just as falsy. */
  datatype Record = Record(name: string, table: string)

  /** `if (name && table)`: both cells are non-empty. */
  predicate Kept(r: Record) {
    r.name != [] && r.table != []
  }

  /** The map built from `records[1..n]`, one `guests.set(name, table.trim())` per kept record. */
  function GuestsUpTo(records: seq<Record>, n: nat): map<string, string>
    requires n <= |records|
  {
    if n <= 1 then map[]
    else
      var m := GuestsUpTo(records, n - 1);
      var r := records[n - 1];
      if Kept(r) then m[r.name := Trim(r.table)] else m
  }

  /** The map built from all records. */
  function Guests(records: seq<Record>): map<string, string> {
    GuestsUpTo(records, |records|)
  }

  /** Every key is a non-empty name and every value a trimmed table. */
  lemma GuestsEntries(records: seq<Record>)
    ensures forall name :: name in Guests(records) ==> name != [] && Trimmed(Guests(records)[name])
  {
    forall name | name in Guests(records)
      ensures name != [] && Trimmed(Guests(records)[name])
    {
      GuestsValues(records, |records|, name);
    }
  }

  /** A name is a key exactly when some kept record after the header carries it. */
  lemma {:induction false} GuestsKeys(records: seq<Record>, n: nat, name: string)
    requires n <= |records|
    ensures name in GuestsUpTo(records, n) <==>
            exists i :: 1 <= i < n && Kept(records[i]) && records[i].name == name
  {
    if n > 1 {
      GuestsKeys(records, n - 1, name);
      if name in GuestsUpTo(records, n) && name !in GuestsUpTo(records, n - 1) {
        assert Kept(records[n - 1]) && records[n - 1].name == name;
      }
    }
  }

  /** Last row wins: the value of a name is the trimmed table cell of the last kept record that carries it. */
  lemma {:induction false} GuestsLastWins(records: seq<Record>, n: nat, i: nat)
    requires 1 <= i < n <= |records| && Kept(records[i])
    requires forall j :: i < j < n && Kept(records[j]) ==> records[j].name != records[i].name
    ensures records[i].name in GuestsUpTo(records, n)
    ensures GuestsUpTo(records, n)[records[i].name] == Trim(records[i].table)
  {
    var m := GuestsUpTo(records, n - 1);
    var r := records[n - 1];
    var name := records[i].name;
    if i < n - 1 {
      GuestsLastWins(records, n - 1, i);
      assert !Kept(r) || r.name != name;
      if Kept(r) {
        assert GuestsUpTo(records, n) == m[r.name := Trim(r.table)];
      } else {
        assert GuestsUpTo(records, n) == m;
      }
    } else {
      assert GuestsUpTo(records, n) == m[name := Trim(r.table)];
    }
  }

  /** Every stored value is the trimmed table cell of some kept record with that name, so it never has surrounding whitespace. */
  lemma {:induction false} GuestsValues(records: seq<Record>, n: nat, name: string)
    requires n <= |records|
    requires name in GuestsUpTo(records, n)
    ensures exists i :: 1 <= i < n && Kept(records[i]) && records[i].name == name
                        && GuestsUpTo(records, n)[name] == Trim(records[i].table)
    ensures Trimmed(GuestsUpTo(records, n)[name])
  {
    var m := GuestsUpTo(records, n - 1);
    var r := records[n - 1];
    if !(Kept(r) && r.name == name) {
      GuestsValues(records, n - 1, name);
    }
    var i :| 1 <= i < n && Kept(records[i]) && records[i].name == name
             && GuestsUpTo(records, n)[name] == Trim(records[i].table);
    TrimShape(records[i].table);
  }
}
