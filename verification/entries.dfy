/**
 * The mobile-money entries: the staging slot where one entry is composed,
 * and the committed list it is added to, edited in and deleted from.
 */
module Entries {
  import opened Optional
  import opened NumberText
  import opened Schema

  /** The entry being composed, before "Add" commits it. */
  datatype Slot = Slot(numberOfTransactions: int, amount: real, transactionType: string)

  /** The slot's state when the form mounts and after every "Add". */
  const DefaultSlot: Slot := Slot(0, 0.0, "Withdrawal")

  // ---------------------------------------------------------------------
  // Per-field input rule of the slot

  /**
   * The count box as written: empty text gives 0, text `Number` rejects keeps
   * the previous value, anything else goes through `parseInt`. `None` is NaN.
   */
  function StagedCountAsWritten(prev: Option<int>, text: string): Option<int>
  {
    if text == "" then Some(0)
    else if JsNumber(text).None? then prev
    else ParseInt(text)
  }

  /** ".5" passes the `Number` guard, and `parseInt` then turns the count into NaN. */
  lemma PointFiveStagesNaN(prev: Option<int>)
    ensures JsNumber(".5").Some?
    ensures StagedCountAsWritten(prev, ".5") == None
  {
    var n := Numeral(Unsigned, "", true, "5");
    assert Render(n) == ".5";
    ScanRender(n);
  }

  /**
   * The count box with the integer conversion the guard was meant to admit:
   * wherever the box as written yields a number it yields the same one, and
   * numeric text is truncated toward zero, so the count is always a number.
   */
  function StagedCount(prev: int, text: string): (r: int)
    ensures StagedCountAsWritten(Some(prev), text).Some? ==> StagedCountAsWritten(Some(prev), text) == Some(r)
    ensures JsNumber(text).Some? ==> var x := JsNumber(text).value;
      (0.0 <= x ==> r as real <= x < r as real + 1.0) && (x < 0.0 ==> r as real - 1.0 < x <= r as real)
  {
    if text == "" then 0
    else if JsNumber(text).None? then prev
    else if ParseInt(text).Some? then ParseIntIsTrunc(text); Trunc(JsNumber(text).value)
    else Trunc(JsNumber(text).value)
  }

  /** The amount box: empty gives 0, rejected text keeps the previous value, numeric text is `parseFloat`ed. */
  function StagedAmount(prev: real, text: string): (r: real)
    ensures text != "" && JsNumber(text).None? ==> r == prev
    ensures JsNumber(text).Some? ==> r == JsNumber(text).value
  {
    if text == "" then 0.0
    else if JsNumber(text).None? then prev
    else ParseFloatIsNumber(text); ParseFloat(text)
  }

  /** Typing the decimal form of a count stages exactly that count, whatever was there. */
  lemma TypeCountRoundTrip(prev: int, n: int)
    ensures StagedCount(prev, ShowInt(n)) == n
  {
    ShowIntNumber(n);
  }

  /** Typing the decimal form of an integer amount stages exactly that amount. */
  lemma TypeAmountRoundTrip(prev: real, n: int)
    ensures StagedAmount(prev, ShowInt(n)) == n as real
  {
    ShowIntNumber(n);
  }

  /** Each slot setter writes its own field and keeps the other two. */
  function SetCount(s: Slot, text: string): (r: Slot)
    ensures r.amount == s.amount && r.transactionType == s.transactionType
    ensures r.numberOfTransactions == StagedCount(s.numberOfTransactions, text)
  {
    s.(numberOfTransactions := StagedCount(s.numberOfTransactions, text))
  }

  function SetAmount(s: Slot, text: string): (r: Slot)
    ensures r.numberOfTransactions == s.numberOfTransactions && r.transactionType == s.transactionType
    ensures r.amount == StagedAmount(s.amount, text)
  {
    s.(amount := StagedAmount(s.amount, text))
  }

  function SetType(s: Slot, t: string): (r: Slot)
    ensures r.numberOfTransactions == s.numberOfTransactions && r.amount == s.amount
    ensures r.transactionType == t
  {
    s.(transactionType := t)
  }

  /** Non-numeric text leaves the whole slot as it was. */
  lemma RejectedTextKeepsSlot(s: Slot, text: string)
    requires text != "" && JsNumber(text).None?
    ensures SetCount(s, text) == s && SetAmount(s, text) == s
  {
  }

  // ---------------------------------------------------------------------
  // The committed list

  /** The entry "Add" commits: the slot's numbers and type, unvalidated. */
  function ToEntry(s: Slot): (e: Entry)
    ensures Coerce(e.numberOfTransactions) == Some(s.numberOfTransactions as real)
    ensures Coerce(e.amount) == Some(s.amount)
    ensures e.transactionType == s.transactionType
  {
    Entry(Num(s.numberOfTransactions as real), Num(s.amount), s.transactionType)
  }

  /** A committed entry is valid exactly when the slot held a count of at least 1, a non-negative amount and a known type. */
  lemma ToEntryOk(s: Slot)
    ensures EntryOk(ToEntry(s)) <==>
      s.numberOfTransactions >= 1 && s.amount >= 0.0 && s.transactionType in TransactionTypes
  {
  }

  /** The default slot, added as it is, is an entry the schema rejects. */
  lemma DefaultEntryRejected()
    ensures !EntryOk(ToEntry(DefaultSlot))
    ensures !CountOk(ToEntry(DefaultSlot))
  {
  }

  /** Appending puts `e` at the end and keeps everything before it. */
  function Append(es: seq<Entry>, e: Entry): (r: seq<Entry>)
    ensures |r| == |es| + 1
    ensures r[..|es|] == es && r[|es|] == e
  {
    es + [e]
  }

  /** Deletes row `i`; the rows after it move up by one, in order. */
  function RemoveAt(es: seq<Entry>, i: nat): (r: seq<Entry>)
    requires i < |es|
    ensures |r| == |es| - 1
    ensures forall j :: 0 <= j < i ==> r[j] == es[j]
    ensures forall j :: i <= j < |r| ==> r[j] == es[j + 1]
    ensures multiset(r) + multiset{es[i]} == multiset(es)
  {
    assert es == es[..i] + [es[i]] + es[i + 1..];
    es[..i] + es[i + 1..]
  }

  /** Deleting the row that was just appended gives back the list before the append. */
  lemma RemoveAfterAppend(es: seq<Entry>, e: Entry)
    ensures RemoveAt(Append(es, e), |es|) == es
  {
  }

  /** Commits the slots one "Add" at a time, in order. */
  function AddEach(es: seq<Entry>, slots: seq<Slot>): seq<Entry>
    decreases |slots|
  {
    if slots == [] then es else AddEach(Append(es, ToEntry(slots[0])), slots[1..])
  }

  /** Adding N slots yields the old list followed by those N entries in insertion order. */
  lemma {:induction false} AddEachInOrder(es: seq<Entry>, slots: seq<Slot>)
    ensures |AddEach(es, slots)| == |es| + |slots|
    ensures AddEach(es, slots)[..|es|] == es
    ensures forall k :: 0 <= k < |slots| ==> AddEach(es, slots)[|es| + k] == ToEntry(slots[k])
    decreases |slots|
  {
    if slots != [] {
      var es' := Append(es, ToEntry(slots[0]));
      AddEachInOrder(es', slots[1..]);
      var r := AddEach(es, slots);
      assert r == AddEach(es', slots[1..]);
      assert r[..|es|] == es'[..|es|];
      forall k | 0 <= k < |slots| ensures r[|es| + k] == ToEntry(slots[k]) {
        if k > 0 {
          assert r[|es'| + (k - 1)] == ToEntry(slots[1..][k - 1]);
        }
      }
    }
  }

  /** Replaces row `i` and keeps every other row. */
  function UpdateAt(es: seq<Entry>, i: nat, e: Entry): (r: seq<Entry>)
    requires i < |es|
    ensures |r| == |es| && r[i] == e
    ensures forall j :: 0 <= j < |es| && j != i ==> r[j] == es[j]
  {
    es[i := e]
  }

  /** A row edit only changes that row's validity: the list is valid iff the new row and all others are. */
  lemma UpdateAtValidity(es: seq<Entry>, i: nat, e: Entry)
    requires i < |es|
    ensures EntriesOk(UpdateAt(es, i, e)) <==>
      EntryOk(e) && forall j :: 0 <= j < |es| && j != i ==> EntryOk(es[j])
  {
    var r := UpdateAt(es, i, e);
    if EntryOk(e) && forall j :: 0 <= j < |es| && j != i ==> EntryOk(es[j]) {
      forall j | 0 <= j < |r| ensures EntryOk(r[j]) {
        if j != i {
          assert r[j] == es[j];
        }
      }
    }
  }
}
