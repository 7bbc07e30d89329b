/**
 * The per-account message tables: the row list behind each table, the
 * selection each table remembers, and the rule the "Display" action uses to
 * pick the most recently selected message across all tables.
 */
module Tables {
  import opened Outcomes
  import opened Mail
  import opened Extractor

  /** One table row: the date, sender and subject lines of a message. */
  datatype Row = Row(date: string, from: string, subject: Option<string>)

  /**
   * The row addRow builds, or the exception that stops it: the date is read
   * first, then the senders, then the subject.
   */
  function Summarize(m: Message): (r: Result<Row, MailError>)
    ensures r.Ok? <==> m.sentDate.Some? && m.from.Some?
    ensures r.Ok? ==> r.value == Row(m.sentDate.value, FromText(m).value, m.subject)
  {
    match GetDate(m)
    case Err(e) => Err(e)
    case Ok(date) =>
      match FromText(m)
      case Err(e) => Err(e)
      case Ok(from) => Ok(Row(date, from, GetSubject(m)))
  }

  class MultiLineTableModel {
    var data: seq<Row>

    constructor ()
      ensures data == []
    {
      data := [];
    }

    /** Appends the message's row; an exception while building it appends nothing. */
    method AddRow(m: Message) returns (r: Outcome<MailError>)
      modifies this
      ensures r.Pass? <==> Summarize(m).Ok?
      ensures r.Pass? ==> data == old(data) + [Summarize(m).value]
      ensures r.Fail? ==> data == old(data) && r.error == Summarize(m).error
    {
      var date := GetDate(m);
      if date.Err? {
        return Fail(date.error);
      }
      var from := GetFrom(m);
      if from.Err? {
        return Fail(from.error);
      }
      data := data + [Row(date.value, from.value, GetSubject(m))];
      r := Pass;
    }

    method ClearRows()
      modifies this
      ensures data == []
    {
      data := [];
    }

    method GetRowCount() returns (n: nat)
      ensures n == |data|
    {
      n := |data|;
    }
  }

  /** A table and the selection it last reported: row index and the time it was made. */
  class MultilineTable {
    const model: MultiLineTableModel
    var lastIndex: int
    var lastIndexTime: int

    constructor ()
      ensures fresh(model) && model.data == []
      ensures lastIndex == -1 && lastIndexTime == -1
    {
      model := new MultiLineTableModel();
      lastIndex, lastIndexTime := -1, -1;
    }

    /** Records the selected row (-1 for none) and the current time in milliseconds. */
    method UpdateLastIndex(selectedRow: int, now: int)
      modifies this
      ensures lastIndex == selectedRow && lastIndexTime == now
    {
      lastIndex := selectedRow;
      lastIndexTime := now;
    }
  }

  /** A table whose remembered selection can be displayed: a row, made at a time after -1. */
  predicate Selectable(lastIndex: int, lastIndexTime: int) {
    lastIndex >= 0 && lastIndexTime > -1
  }

  /**
   * The "Display" choice: the table whose selectable row was selected most
   * recently, the earliest such table on a tie, with that row; (-1, -1)
   * when no table has a selectable row.
   */
  method SelectForDisplay(tables: array<MultilineTable>) returns (i: int, j: int)
    ensures -1 <= i < tables.Length
    ensures i == -1 <==> forall k :: 0 <= k < tables.Length ==> !Selectable(tables[k].lastIndex, tables[k].lastIndexTime)
    ensures i == -1 ==> j == -1
    ensures i >= 0 ==>
              Selectable(tables[i].lastIndex, tables[i].lastIndexTime) && j == tables[i].lastIndex &&
              forall k :: 0 <= k < tables.Length && Selectable(tables[k].lastIndex, tables[k].lastIndexTime) ==>
                tables[k].lastIndexTime <= tables[i].lastIndexTime &&
                (k < i ==> tables[k].lastIndexTime < tables[i].lastIndexTime)
  {
    i, j := -1, -1;
    var t := -1;
    for k := 0 to tables.Length
      invariant -1 <= i < k
      invariant i == -1 <==> forall q :: 0 <= q < k ==> !Selectable(tables[q].lastIndex, tables[q].lastIndexTime)
      invariant i == -1 ==> j == -1 && t == -1
      invariant i >= 0 ==>
                  Selectable(tables[i].lastIndex, tables[i].lastIndexTime) &&
                  j == tables[i].lastIndex && t == tables[i].lastIndexTime
      invariant forall q :: 0 <= q < k && Selectable(tables[q].lastIndex, tables[q].lastIndexTime) ==>
                  tables[q].lastIndexTime <= t && (q < i ==> tables[q].lastIndexTime < t)
    {
      var mul := tables[k];
      if mul.lastIndex >= 0 && mul.lastIndexTime > t {
        i := k;
        j := mul.lastIndex;
        t := mul.lastIndexTime;
      }
    }
  }
}
