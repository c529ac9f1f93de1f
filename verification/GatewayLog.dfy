/**
 The AI Gateway request log as the meter sees it: an append-only list in creation order, a listing that
 filters by whole seconds, and the row parser (`src/ai-gateway-logs.ts`, `src/llm-spend-rollup.ts`).
 Instants are milliseconds; `Calendar.IsoOrderIsTimeOrder` is why comparing them is comparing their text.
 */
module GatewayLog {
  import opened Basics

  /**
   One log row. `at` is the instant the gateway orders it by; `stamped` says whether the row's own
   `created_at` field came through as usable text. A cost the gateway did not report is `None`.
   */
  datatype LogRow = LogRow(id: Option<string>, at: int, stamped: bool, tenant: Option<string>, cost: Option<nat>)

  datatype SpendEvent = SpendEvent(sourceId: string, tenantId: Option<string>, cost: Option<nat>, occurredAt: int)

  /** A text field that is present and not blank. */
  function Usable(v: Option<string>): Option<string> {
    if v.Some? && JsTrim(v.value) != "" then Some(JsTrim(v.value)) else None
  }

  function ParseLogRow(row: LogRow): Option<SpendEvent> {
    if Usable(row.id).None? || !row.stamped then None
    else Some(SpendEvent(Usable(row.id).value, Usable(row.tenant), row.cost, row.at))
  }

  /**
   What a row becomes, over its own fields: an event exactly when its id is more than blanks and it carries a time;
   the event has the id and the tenant without the blanks around them, no tenant when that is blank or absent, the
   row's instant, and its cost as reported: one that was not reported stays unknown and is never zero.
   */
  lemma ParseSpelled(row: LogRow)
    ensures ParseLogRow(row).Some? <==> row.stamped && row.id.Some? && exists k :: 0 <= k < |row.id.value| && !JsBlank(row.id.value[k])
    ensures ParseLogRow(row).Some? ==>
              var e := ParseLogRow(row).value;
              && e.occurredAt == row.at && e.cost == row.cost && (e.cost.None? <==> row.cost.None?)
              && (exists lead :: Between(row.id.value, lead, e.sourceId, JsBlank))
              && (e.tenantId.Some? <==> row.tenant.Some? && exists k :: 0 <= k < |row.tenant.value| && !JsBlank(row.tenant.value[k]))
              && (e.tenantId.Some? ==> exists lead :: Between(row.tenant.value, lead, e.tenantId.value, JsBlank))
  {
    if row.id.Some? { UsableSpelled(row.id.value); }
    if row.tenant.Some? { UsableSpelled(row.tenant.value); }
    hide JsTrim, JsBlank, Between;
  }

  lemma UsableSpelled(s: string)
    ensures JsTrim(s) != "" <==> exists k :: 0 <= k < |s| && !JsBlank(s[k])
    ensures exists lead :: Between(s, lead, JsTrim(s), JsBlank)
  {
    hide JsBlank, TrimLeft, Trim, Between;
    TrimIsBetween(s, JsBlank);
    SomeLeft(s, |s| - |TrimLeft(s, JsBlank)|, JsTrim(s), JsBlank);
  }

  lemma ParsedAt(row: LogRow)
    requires ParseLogRow(row).Some?
    ensures ParseLogRow(row).value.occurredAt == row.at
  {
  }

  function ParseRows(rows: seq<LogRow>): (events: seq<SpendEvent>)
    ensures |events| <= |rows|
  {
    if rows == [] then []
    else
      var last := ParseLogRow(rows[|rows| - 1]);
      ParseRows(rows[..|rows| - 1]) + if last.Some? then [last.value] else []
  }

  lemma ParseAppend(rows: seq<LogRow>, row: LogRow)
    ensures ParseRows(rows + [row])
            == ParseRows(rows) + if ParseLogRow(row).Some? then [ParseLogRow(row).value] else []
  {
    assert (rows + [row])[..|rows|] == rows;
  }

  lemma {:induction false} ParseConcat(rows: seq<LogRow>, more: seq<LogRow>)
    ensures ParseRows(rows + more) == ParseRows(rows) + ParseRows(more)
  {
    hide ParseLogRow;
    if more == [] {
      assert rows + more == rows;
    } else {
      var front := more[..|more| - 1];
      ParseConcat(rows, front);
      assert (rows + more)[..|rows + more| - 1] == rows + front;
    }
  }

  /** Every parseable row read is an event. */
  lemma {:induction false} EventOfRow(rows: seq<LogRow>, k: nat)
    requires k < |rows| && ParseLogRow(rows[k]).Some?
    ensures ParseLogRow(rows[k]).value in ParseRows(rows)
  {
    hide ParseLogRow;
    var front := rows[..|rows| - 1];
    if k < |front| {
      assert front[k] == rows[k];
      EventOfRow(front, k);
    }
  }

  /** Every parsed event comes from a row read. */
  lemma {:induction false} RowOfEvent(rows: seq<LogRow>, e: SpendEvent) returns (k: nat)
    requires e in ParseRows(rows)
    ensures k < |rows| && ParseLogRow(rows[k]) == Some(e)
  {
    hide ParseLogRow;
    var front := rows[..|rows| - 1];
    if e in ParseRows(front) {
      k := RowOfEvent(front, e);
      assert front[k] == rows[k];
    } else {
      k := |rows| - 1;
    }
  }

  // ---- the listing ----

  ghost predicate Ascending(log: seq<LogRow>) {
    forall i, j | 0 <= i < j < |log| :: log[i].at <= log[j].at
  }

  /** `created_at gt after` compares whole seconds, so the second holding `after` is delivered again. */
  predicate Delivered(after: Option<int>, at: int) {
    after.None? || at / 1000 >= after.value / 1000
  }

  function Filtered(log: seq<LogRow>, after: Option<int>): (r: seq<LogRow>) {
    if log == [] then []
    else
      var last := log[|log| - 1];
      Filtered(log[..|log| - 1], after) + if Delivered(after, last.at) then [last] else []
  }

  /** A page of the filtered list: what follows the first `offset` rows, at most `perPage` of them. */
  function PageAt(list: seq<LogRow>, offset: nat, perPage: nat): (rows: seq<LogRow>)
    ensures |rows| <= perPage
    ensures offset <= |list| ==> offset + |rows| <= |list| && rows == list[offset..offset + |rows|]
    ensures offset <= |list| && |rows| < perPage ==> offset + |rows| == |list|
  {
    if offset > |list| then [] else list[offset..Min(offset + perPage, |list|)]
  }

  lemma {:induction false} FilteredIsPrefix(log: seq<LogRow>, more: seq<LogRow>, after: Option<int>)
    ensures Filtered(log, after) <= Filtered(log + more, after)
  {
    if more == [] {
      assert log + more == log;
    } else {
      var front := more[..|more| - 1];
      FilteredIsPrefix(log, front, after);
      assert (log + more)[..|log + more| - 1] == log + front;
    }
  }

  lemma {:induction false} FilteredMembers(log: seq<LogRow>, after: Option<int>, row: LogRow)
    ensures row in Filtered(log, after) <==> row in log && Delivered(after, row.at)
  {
    if log != [] {
      FilteredMembers(log[..|log| - 1], after, row);
      assert log == log[..|log| - 1] + [log[|log| - 1]];
    }
  }

  lemma {:induction false} FilteredAscends(log: seq<LogRow>, after: Option<int>)
    requires Ascending(log)
    ensures Ascending(Filtered(log, after))
  {
    if log != [] {
      var front, last := log[..|log| - 1], log[|log| - 1];
      FilteredAscends(front, after);
      forall k | 0 <= k < |Filtered(front, after)|
        ensures Filtered(front, after)[k].at <= last.at
      {
        FilteredMembers(front, after, Filtered(front, after)[k]);
      }
    }
  }
}
