/**
 * The saved connection list of the web client (`connectionHistory`): the most
 * recent connection first, one entry per host and port, at most ten entries.
 * The browser's storage slot is a field; the clock reading is a parameter.
 */
module ConnectionHistory {
  import opened Wrappers

  const MaxRecords: nat := 10

  /** The connection settings a caller passes in (a record without its timestamp). */
  datatype ConnectionConfig = ConnectionConfig(host: string, port: int, password: string, db: int)

  datatype ConnectionRecord = ConnectionRecord(host: string, port: int, password: string, db: int, timestamp: int)

  /** The record `addRecord` builds: the caller's settings with the current time. */
  function Stamp(c: ConnectionConfig, now: int): ConnectionRecord
  {
    ConnectionRecord(c.host, c.port, c.password, c.db, now)
  }

  /** Only the host and the port identify an entry; password and database do not. */
  predicate SameEndpoint(h: ConnectionRecord, host: string, port: int) {
    h.host == host && h.port == port
  }

  /** `a` is `b` with some entries left out, the rest in their original order. */
  ghost predicate IsSubsequence<T>(a: seq<T>, b: seq<T>)
    decreases |b|
  {
    if a == [] then true
    else if b == [] then false
    else (a[0] == b[0] && IsSubsequence(a[1..], b[1..])) || IsSubsequence(a, b[1..])
  }

  /** `history.filter(h => h.host !== host || h.port !== port)`. */
  function WithoutEndpoint(history: seq<ConnectionRecord>, host: string, port: int): (r: seq<ConnectionRecord>)
    ensures |r| <= |history|
    ensures forall i :: 0 <= i < |r| ==> !SameEndpoint(r[i], host, port)
    ensures forall h :: h in r <==> h in history && !SameEndpoint(h, host, port)
    ensures IsSubsequence(r, history)
    ensures forall h :: multiset(r)[h] == if SameEndpoint(h, host, port) then 0 else multiset(history)[h]
  {
    if history == [] then []
    else
      assert history == [history[0]] + history[1..];
      if SameEndpoint(history[0], host, port) then WithoutEndpoint(history[1..], host, port)
      else
        var rest := WithoutEndpoint(history[1..], host, port);
        assert ([history[0]] + rest)[1..] == rest;
        [history[0]] + rest
  }

  /** The list `addRecord` stores: the new record, then the other endpoints, cut to `MaxRecords`. */
  function AddRecordTo(history: seq<ConnectionRecord>, c: ConnectionConfig, now: int): (r: seq<ConnectionRecord>)
    ensures 1 <= |r| <= MaxRecords
    ensures |r| == if |WithoutEndpoint(history, c.host, c.port)| < MaxRecords
                   then |WithoutEndpoint(history, c.host, c.port)| + 1 else MaxRecords
    ensures r[0].host == c.host && r[0].port == c.port && r[0].password == c.password && r[0].db == c.db
    ensures r[0].timestamp == now
    ensures forall i :: 1 <= i < |r| ==> !SameEndpoint(r[i], c.host, c.port)
    ensures r[1..] == WithoutEndpoint(history, c.host, c.port)[..|r| - 1]
    ensures |WithoutEndpoint(history, c.host, c.port)| < MaxRecords ==> r[1..] == WithoutEndpoint(history, c.host, c.port)
  {
    var rest := WithoutEndpoint(history, c.host, c.port);
    var updated := [Stamp(c, now)] + rest;
    assert updated[0] == Stamp(c, now) && updated[1..] == rest;
    if |updated| <= MaxRecords then updated
    else
      assert updated[..MaxRecords][1..] == rest[..MaxRecords - 1];
      updated[..MaxRecords]
  }

  lemma {:induction false} PrefixIsSubsequence<T>(a: seq<T>, b: seq<T>, n: nat)
    requires IsSubsequence(a, b) && n <= |a|
    ensures IsSubsequence(a[..n], b)
    decreases |b|
  {
    if n > 0 {
      if a[0] == b[0] && IsSubsequence(a[1..], b[1..]) {
        PrefixIsSubsequence(a[1..], b[1..], n - 1);
        assert a[..n][1..] == a[1..][..n - 1];
      } else {
        PrefixIsSubsequence(a, b[1..], n);
      }
    }
  }

  /** The older records that stay keep their relative order. */
  lemma RetainedKeepOrder(history: seq<ConnectionRecord>, c: ConnectionConfig, now: int)
    ensures IsSubsequence(AddRecordTo(history, c, now)[1..], history)
  {
    var r := AddRecordTo(history, c, now);
    PrefixIsSubsequence(WithoutEndpoint(history, c.host, c.port), history, |r| - 1);
  }

  /** An entry for another endpoint is kept unless it falls off the end of the list. */
  lemma OtherEndpointsKept(history: seq<ConnectionRecord>, c: ConnectionConfig, now: int, h: ConnectionRecord)
    requires h in history && !SameEndpoint(h, c.host, c.port)
    requires |WithoutEndpoint(history, c.host, c.port)| < MaxRecords
    ensures h in AddRecordTo(history, c, now)
  {
    var r := AddRecordTo(history, c, now);
    assert h in r[1..];
  }

  lemma {:induction false} WithoutAbsentEndpoint(xs: seq<ConnectionRecord>, host: string, port: int)
    requires forall i :: 0 <= i < |xs| ==> !SameEndpoint(xs[i], host, port)
    ensures WithoutEndpoint(xs, host, port) == xs
  {
    if xs != [] {
      WithoutAbsentEndpoint(xs[1..], host, port);
      assert [xs[0]] + xs[1..] == xs;
    }
  }

  /** Saving the same connection twice at the same moment stores the same list as saving it once. */
  lemma AddRecordIdempotent(history: seq<ConnectionRecord>, c: ConnectionConfig, now: int)
    ensures AddRecordTo(AddRecordTo(history, c, now), c, now) == AddRecordTo(history, c, now)
  {
    var r := AddRecordTo(history, c, now);
    WithoutAbsentEndpoint(r[1..], c.host, c.port);
    assert r == [r[0]] + r[1..];
  }

  /** What the storage slot can hold: a list written by `addRecord`, or text that does not parse. */
  datatype StoredValue = Records(records: seq<ConnectionRecord>) | Unparsable

  /** The `localStorage` slot under `redis_connection_history`. */
  class HistoryStore {
    var slot: Option<StoredValue>

    /** Every list this code stores respects the length bound. */
    ghost predicate Valid()
      reads this
    {
      slot.Some? && slot.value.Records? ==> |slot.value.records| <= MaxRecords
    }

    constructor ()
      ensures Valid() && slot == None
    {
      slot := None;
    }

    /**
     * `getHistory`: the stored list, or the empty list when nothing is stored or it does not parse.
     * The list is returned as stored; it is at most `MaxRecords` long only when this code wrote it.
     */
    method GetHistory() returns (r: seq<ConnectionRecord>)
      ensures Valid() ==> |r| <= MaxRecords
      ensures slot.Some? && slot.value.Records? ==> r == slot.value.records
      ensures slot == None || slot == Some(Unparsable) ==> r == []
    {
      match slot
      case Some(Records(rs)) => r := rs;
      case Some(Unparsable) => r := [];
      case None => r := [];
    }

    /** `addRecord`: store the updated list. */
    method AddRecord(c: ConnectionConfig, now: int)
      modifies this
      ensures Valid()
      ensures old(slot).Some? && old(slot).value.Records? ==>
        slot == Some(Records(AddRecordTo(old(slot).value.records, c, now)))
      ensures old(slot) == None || old(slot) == Some(Unparsable) ==>
        slot == Some(Records([Stamp(c, now)]))
    {
      var history := GetHistory();
      var updated := AddRecordTo(history, c, now);
      assert history == [] ==> updated == [Stamp(c, now)];
      slot := Some(Records(updated));
    }

    /** `clearHistory`: nothing is stored afterwards. */
    method ClearHistory()
      modifies this
      ensures Valid() && slot == None
    {
      slot := None;
    }
  }
}
