/**
 The history logic of the browser page (public/script.js): the cleanup that
 prunes the loaded history against the current names and weeks lists, the
 merge that writes the grid's rows back into the history when Save is
 pressed, and the status lookup the grid uses to show each day.

 The specification functions (`Cleaned`, `Merged`, `DayMapOf`, `DayStatus`)
 describe what the page computes; the class `Page` holds the page's global
 state and performs the cleanup and the merge with loops, as the script does,
 each proved equal to its specification function.
 */
module Client {
  import opened History

  /** An entry of the names list. Only `id` takes part in the history logic. */
  datatype Employee = Employee(id: string, name: string)

  /** One day dropdown of a table row: its day label and its selected status. */
  datatype Selection = Selection(day: string, value: string)

  /** One table row as the Save handler reads it: the row's employee id, the
      week chosen in its week dropdown, and its day dropdowns in row order. */
  datatype Row = Row(empId: string, week: string, selections: seq<Selection>)

  /** The seven day labels, in the order the grid shows them. */
  const WeekDays: seq<string> := ["Mon", "Tue", "Wed", "Thu", "Fri", "Sat", "Sun"]

  /** What the grid shows for a day with no (or an empty) stored status. */
  const EmptyStatus: string := "Empty"

  /** Some entry of `names` has id `id`. */
  predicate IsListed(names: seq<Employee>, id: string) {
    exists i :: 0 <= i < |names| && names[i].id == id
  }

  // ---------------------------------------------------------------------------
  // Loading and cleanup
  // ---------------------------------------------------------------------------

  /** The history as loaded: the parsed response, or `{}` when it did not parse. */
  function LoadedHistory(parsed: Option<Document>): (doc: Document)
    ensures parsed.None? ==> doc == EmptyDocument
    ensures parsed.Some? ==> doc == parsed.value
  {
    parsed.GetOr(EmptyDocument)
  }

  /** The weeks of one employee that are in the weeks list. */
  function KeptWeeks(weeksOf: WeekMap, weeks: seq<string>): (r: WeekMap)
    // only listed weeks are kept, each with its day map as it was
    ensures forall w :: w in r ==> w in weeksOf && w in weeks && r[w] == weeksOf[w]
    // and every listed week is kept
    ensures forall w :: w in weeksOf && w in weeks ==> w in r
  {
    map w | w in weeksOf && w in weeks :: weeksOf[w]
  }

  /** The history after the cleanup pass: unknown employees are gone, and
      every remaining employee keeps only the weeks of the weeks list. */
  function Cleaned(doc: Document, names: seq<Employee>, weeks: seq<string>): (r: Document)
    // every employee left is a listed one
    ensures forall e :: e in r ==> IsListed(names, e)
    // every week left is a listed one
    ensures forall e, w :: e in r && w in r[e] ==> w in weeks
    // only removals: keys shrink at both levels, day maps stay as they were
    ensures r.Keys <= doc.Keys
    ensures forall e :: e in r ==> r[e].Keys <= doc[e].Keys
    ensures forall e, w :: e in r && w in r[e] ==> r[e][w] == doc[e][w]
    // and nothing valid is removed
    ensures forall e :: e in doc && IsListed(names, e) ==> e in r
    ensures forall e, w :: e in r && w in doc[e] && w in weeks ==> w in r[e]
  {
    map e | e in doc && IsListed(names, e) :: KeptWeeks(doc[e], weeks)
  }

  /** A listed employee all of whose weeks are unlisted stays in the history,
      with an empty week map: only unknown ids are ever deleted. */
  lemma ListedEmployeeStays(doc: Document, names: seq<Employee>, weeks: seq<string>, e: string)
    requires e in doc && IsListed(names, e)
    requires forall w :: w in doc[e] ==> w !in weeks
    ensures e in Cleaned(doc, names, weeks)
    ensures Cleaned(doc, names, weeks)[e] == map[]
  {
  }

  /** Cleaning a cleaned history with the same lists changes nothing. */
  lemma CleanedIdempotent(doc: Document, names: seq<Employee>, weeks: seq<string>)
    ensures Cleaned(Cleaned(doc, names, weeks), names, weeks) == Cleaned(doc, names, weeks)
  {
    var once := Cleaned(doc, names, weeks);
    var twice := Cleaned(once, names, weeks);
    forall e | e in once
      ensures e in twice && twice[e] == once[e]
    {
      assert KeptWeeks(once[e], weeks) == once[e];
    }
  }

  // ---------------------------------------------------------------------------
  // Save merge
  // ---------------------------------------------------------------------------

  /** The day map a row's dropdowns build by `days[day] = value` in row order:
      a later dropdown with the same day label overwrites an earlier one. */
  function DayMapOf(sels: seq<Selection>): (r: DayMap)
    // every day of the map comes from one of the dropdowns
    ensures forall d :: d in r ==> exists i :: 0 <= i < |sels| && sels[i].day == d
    decreases |sels|
  {
    if sels == [] then map[]
    else DayMapOf(sels[..|sels| - 1])[sels[|sels| - 1].day := sels[|sels| - 1].value]
  }

  /** Exactly the day labels of the dropdowns are keys of the day map. */
  lemma {:induction false} DayMapOfKeys(sels: seq<Selection>)
    ensures DayMapOf(sels).Keys == set i | 0 <= i < |sels| :: sels[i].day
    decreases |sels|
  {
    if sels != [] {
      var n := |sels| - 1;
      DayMapOfKeys(sels[..n]);
      var front := set i | 0 <= i < n :: sels[..n][i].day;
      var all := set i | 0 <= i < |sels| :: sels[i].day;
      assert front == set i | 0 <= i < n :: sels[i].day;
      assert all == front + {sels[n].day} by {
        forall d | d in all ensures d in front + {sels[n].day} {
          var i :| 0 <= i < |sels| && sels[i].day == d;
          if i < n { assert sels[..n][i].day == d; }
        }
      }
    }
  }

  /** The last dropdown for a day label decides that day's value. */
  lemma {:induction false} DayMapOfLastWins(sels: seq<Selection>, k: nat)
    requires k < |sels|
    requires forall j :: k < j < |sels| ==> sels[j].day != sels[k].day
    ensures sels[k].day in DayMapOf(sels)
    ensures DayMapOf(sels)[sels[k].day] == sels[k].value
    decreases |sels|
  {
    var n := |sels| - 1;
    if k < n {
      DayMapOfLastWins(sels[..n], k);
    }
  }

  /** One row written into the history: the employee's week map is created
      when missing, then the row's week is replaced by the row's day map. */
  function Put(doc: Document, row: Row): (r: Document)
    // the row's week now holds the row's day map
    ensures row.empId in r && row.week in r[row.empId]
    ensures r[row.empId][row.week] == DayMapOf(row.selections)
    // the row's employee is added when missing, and no employee is removed
    ensures r.Keys == doc.Keys + {row.empId}
    // every other employee is as it was
    ensures forall e :: e in doc && e != row.empId ==> r[e] == doc[e]
    // every other week of the row's employee is as it was
    ensures r[row.empId].Keys ==
            (if row.empId in doc then doc[row.empId].Keys else {}) + {row.week}
    ensures forall w :: row.empId in doc && w in doc[row.empId] && w != row.week ==>
              r[row.empId][w] == doc[row.empId][w]
  {
    var weeksOf := if row.empId in doc then doc[row.empId] else map[];
    doc[row.empId := weeksOf[row.week := DayMapOf(row.selections)]]
  }

  /** The history after the Save handler has written every row, in order. */
  function Merged(doc: Document, rows: seq<Row>): (r: Document)
    // the merge only adds or replaces: no employee and no week is deleted
    ensures forall e :: e in doc ==> e in r
    ensures forall e, w :: e in doc && w in doc[e] ==> w in r[e]
    decreases |rows|
  {
    if rows == [] then doc
    else Put(Merged(doc, rows[..|rows| - 1]), rows[|rows| - 1])
  }

  /** The employee ids named by the rows. */
  function RowIds(rows: seq<Row>): set<string> {
    set j | 0 <= j < |rows| :: rows[j].empId
  }

  /** Appending a row adds its employee id to the ids the rows name. */
  lemma RowIdsSnoc(rows: seq<Row>)
    requires rows != []
    ensures RowIds(rows) == RowIds(rows[..|rows| - 1]) + {rows[|rows| - 1].empId}
  {
    var n := |rows| - 1;
    forall e | e in RowIds(rows) ensures e in RowIds(rows[..n]) + {rows[n].empId} {
      var j :| 0 <= j < |rows| && rows[j].empId == e;
      if j < n { assert rows[..n][j].empId == e; }
    }
    forall e | e in RowIds(rows[..n]) ensures e in RowIds(rows) {
      var j :| 0 <= j < n && rows[..n][j].empId == e;
      assert rows[j].empId == e;
    }
  }

  /** After the merge the employees are those before it plus those of the rows. */
  lemma {:induction false} MergedKeys(doc: Document, rows: seq<Row>)
    ensures Merged(doc, rows).Keys == doc.Keys + RowIds(rows)
    decreases |rows|
  {
    if rows != [] {
      var n := |rows| - 1;
      MergedKeys(doc, rows[..n]);
      RowIdsSnoc(rows);
      assert Merged(doc, rows).Keys == Merged(doc, rows[..n]).Keys + {rows[n].empId};
    }
  }

  /** For each row not overwritten by a later row for the same employee and
      week, the merged history holds that row's day map at that place. */
  lemma {:induction false} MergedStoresRow(doc: Document, rows: seq<Row>, i: nat)
    requires i < |rows|
    requires forall j :: i < j < |rows| ==>
               rows[j].empId != rows[i].empId || rows[j].week != rows[i].week
    ensures rows[i].empId in Merged(doc, rows)
    ensures rows[i].week in Merged(doc, rows)[rows[i].empId]
    ensures Merged(doc, rows)[rows[i].empId][rows[i].week] == DayMapOf(rows[i].selections)
    decreases |rows|
  {
    var n := |rows| - 1;
    if i < n {
      MergedStoresRow(doc, rows[..n], i);
    }
  }

  /** An employee that no row names is left exactly as it was. */
  lemma {:induction false} MergedKeepsOtherEmployee(doc: Document, rows: seq<Row>, e: string)
    requires forall j :: 0 <= j < |rows| ==> rows[j].empId != e
    ensures e in Merged(doc, rows) <==> e in doc
    ensures e in doc ==> Merged(doc, rows)[e] == doc[e]
    decreases |rows|
  {
    if rows != [] {
      MergedKeepsOtherEmployee(doc, rows[..|rows| - 1], e);
    }
  }

  /** A week of an employee that no row names is left exactly as it was,
      also when other weeks of the same employee are written. */
  lemma {:induction false} MergedKeepsOtherWeek(doc: Document, rows: seq<Row>, e: string, w: string)
    requires forall j :: 0 <= j < |rows| ==> rows[j].empId != e || rows[j].week != w
    ensures e in doc ==> e in Merged(doc, rows)
    ensures e in Merged(doc, rows) ==>
              (w in Merged(doc, rows)[e] <==> e in doc && w in doc[e])
    ensures e in Merged(doc, rows) && w in Merged(doc, rows)[e] ==>
              Merged(doc, rows)[e][w] == doc[e][w]
    decreases |rows|
  {
    if rows != [] {
      MergedKeepsOtherWeek(doc, rows[..|rows| - 1], e, w);
    }
  }

  // ---------------------------------------------------------------------------
  // Status lookup when rendering
  // ---------------------------------------------------------------------------

  /** The status shown for day `d` of week `w` of employee `e`: the stored
      status when there is a non-empty one, `"Empty"` otherwise. */
  function DayStatus(doc: Document, e: string, w: string, d: string): (s: string)
    ensures e in doc && w in doc[e] && d in doc[e][w] && doc[e][w][d] != "" ==>
              s == doc[e][w][d]
    ensures !(e in doc && w in doc[e] && d in doc[e][w]) ==> s == EmptyStatus
    ensures e in doc && w in doc[e] && d in doc[e][w] && doc[e][w][d] == "" ==>
              s == EmptyStatus
  {
    var days := if e in doc && w in doc[e] then doc[e][w] else map[];
    if d in days && days[d] != "" then days[d] else EmptyStatus
  }

  /** The seven statuses shown for a week of an employee, Mon to Sun. */
  function WeekStatuses(doc: Document, e: string, w: string): (r: seq<string>)
    ensures |r| == |WeekDays|
    ensures forall i :: 0 <= i < |r| ==> r[i] == DayStatus(doc, e, w, WeekDays[i])
    ensures !(e in doc && w in doc[e]) ==> forall i :: 0 <= i < |r| ==> r[i] == EmptyStatus
  {
    seq(|WeekDays|, i requires 0 <= i < |WeekDays| => DayStatus(doc, e, w, WeekDays[i]))
  }

  /** What was saved is what is shown: after the merge, the grid shows for a
      row's week the value of the row's last dropdown for each day, unless
      that value is empty. */
  lemma SavedSelectionShown(doc: Document, rows: seq<Row>, i: nat, k: nat)
    requires i < |rows|
    requires forall j :: i < j < |rows| ==>
               rows[j].empId != rows[i].empId || rows[j].week != rows[i].week
    requires k < |rows[i].selections|
    requires forall j :: k < j < |rows[i].selections| ==>
               rows[i].selections[j].day != rows[i].selections[k].day
    requires rows[i].selections[k].value != ""
    ensures DayStatus(Merged(doc, rows), rows[i].empId, rows[i].week, rows[i].selections[k].day)
            == rows[i].selections[k].value
  {
    MergedStoresRow(doc, rows, i);
    DayMapOfLastWins(rows[i].selections, k);
  }

  /** After the cleanup an unknown employee, or an unlisted week, shows as
      seven `"Empty"` days. */
  lemma CleanedHidesInvalid(doc: Document, names: seq<Employee>, weeks: seq<string>, e: string, w: string)
    requires !IsListed(names, e) || w !in weeks
    ensures forall i :: 0 <= i < |WeekDays| ==>
              WeekStatuses(Cleaned(doc, names, weeks), e, w)[i] == EmptyStatus
  {
  }

  /** After the cleanup a listed employee's listed week shows as before it. */
  lemma CleanedKeepsValid(doc: Document, names: seq<Employee>, weeks: seq<string>, e: string, w: string)
    requires IsListed(names, e) && w in weeks
    ensures WeekStatuses(Cleaned(doc, names, weeks), e, w) == WeekStatuses(doc, e, w)
  {
  }

  // ---------------------------------------------------------------------------
  // The page's state and its two in-place loops
  // ---------------------------------------------------------------------------

  /** Collects a row's day dropdowns into a day map, one assignment per dropdown. */
  method CollectDays(sels: seq<Selection>) returns (days: DayMap)
    ensures days == DayMapOf(sels)
  {
    days := map[];
    var i := 0;
    while i < |sels|
      invariant 0 <= i <= |sels|
      invariant days == DayMapOf(sels[..i])
    {
      assert sels[..i + 1][..i] == sels[..i];
      days := days[sels[i].day := sels[i].value];
      i := i + 1;
    }
    assert sels[..|sels|] == sels;
  }

  /** The page's global data: the names and weeks lists and the history. */
  class Page {
    var names: seq<Employee>
    var weeks: seq<string>
    var history: Document

    constructor ()
      ensures names == [] && weeks == [] && history == EmptyDocument
    {
      names, weeks, history := [], [], EmptyDocument;
    }

    /** Takes the fetched lists and the parsed history (`None` when the
        history response did not parse), then runs the cleanup. */
    method LoadData(namesIn: seq<Employee>, weeksIn: seq<string>, parsed: Option<Document>)
      modifies this
      ensures names == namesIn && weeks == weeksIn
      ensures history == Cleaned(LoadedHistory(parsed), namesIn, weeksIn)
    {
      names := namesIn;
      weeks := weeksIn;
      history := LoadedHistory(parsed);
      Cleanup();
    }

    /** Deletes, in place, every unknown employee and every unlisted week of
        the employees kept. */
    method Cleanup()
      modifies this`history
      ensures history == Cleaned(old(history), names, weeks)
    {
      ghost var initial := history;
      var pending := history.Keys;
      while pending != {}
        invariant pending <= initial.Keys
        invariant forall e :: e in history <==> e in initial && (e in pending || IsListed(names, e))
        invariant forall e :: e in history && e in pending ==> history[e] == initial[e]
        invariant forall e :: e in history && e !in pending ==> history[e] == KeptWeeks(initial[e], weeks)
        decreases pending
      {
        var e :| e in pending;
        pending := pending - {e};
        if !IsListed(names, e) {
          history := history - {e};
        } else {
          ghost var before := history;
          var weekKeys := history[e].Keys;
          while weekKeys != {}
            invariant e in history
            invariant history == before[e := history[e]]
            invariant forall w :: w in history[e] <==> w in initial[e] && (w in weekKeys || w in weeks)
            invariant forall w :: w in history[e] ==> history[e][w] == initial[e][w]
            decreases weekKeys
          {
            var w :| w in weekKeys;
            weekKeys := weekKeys - {w};
            if w !in weeks {
              history := history[e := history[e] - {w}];
            }
          }
          assert history[e] == KeptWeeks(initial[e], weeks);
        }
      }
      assert history == Cleaned(initial, names, weeks);
    }

    /** The Save handler's loop: writes each row's day map into the history,
        creating the employee's week map first when it is missing. */
    method SaveRows(rows: seq<Row>)
      modifies this`history
      ensures history == Merged(old(history), rows)
    {
      ghost var initial := history;
      var i := 0;
      while i < |rows|
        invariant 0 <= i <= |rows|
        invariant history == Merged(initial, rows[..i])
      {
        var row := rows[i];
        ghost var prev := history;
        var days := CollectDays(row.selections);
        if row.empId !in history {
          history := history[row.empId := map[]];
        }
        history := history[row.empId := history[row.empId][row.week := days]];
        assert history == Put(prev, row);
        assert rows[..i + 1][..i] == rows[..i];
        assert Merged(initial, rows[..i + 1]) == Put(Merged(initial, rows[..i]), row);
        i := i + 1;
      }
      assert rows[..|rows|] == rows;
    }

  }
}
