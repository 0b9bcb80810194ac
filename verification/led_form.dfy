/**
 * The form controller: the record being filled in, the errors shown next to
 * its fields, the bank whose branches are offered, and the staging slot.
 * Every user action is a step function from state to state.
 */
module LedForm {
  import opened Optional
  import opened NumberText
  import opened Schema
  import opened Entries

  /** Bank name to its branches, in display order. */
  type BankTable = map<string, seq<string>>

  /** The reference data the form is configured with. */
  datatype Config = Config(banks: BankTable, returnStatuses: seq<string>)

  /** A bank as chosen from the table, with its branch list. */
  datatype Bank = Bank(name: string, branches: seq<string>)

  datatype FormState = FormState(
    values: Record,
    errors: set<FieldKey>,
    selectedBank: Option<Bank>,
    slot: Slot)

  const EmptyRecord: Record := Record(None, Missing, None, None, None, None, None, map[], [])

  /** The form as mounted: nothing entered, no errors, no bank chosen, the default slot. */
  const Init: FormState := FormState(EmptyRecord, {}, None, DefaultSlot)

  /** The branches the branch selector offers; it is shown only once a bank is chosen. */
  function OfferedBranches(s: FormState): seq<string>
  {
    if s.selectedBank.Some? then s.selectedBank.value.branches else []
  }

  // ---------------------------------------------------------------------
  // Bank and branch

  /** Choosing a bank: sets it, unsets the branch, clears the bank error, offers that bank's branches. */
  function SelectBank(cfg: Config, s: FormState, name: string): (r: FormState)
    requires name in cfg.banks
    ensures r.values.bank == Some(name) && r.values.branch == None
    ensures r.errors == s.errors - {BankKey}
    ensures OfferedBranches(r) == cfg.banks[name]
    ensures r.values.(bank := s.values.bank, branch := s.values.branch) == s.values
    ensures r.slot == s.slot
  {
    FormState(
      s.values.(bank := Some(name), branch := None),
      s.errors - {BankKey},
      Some(Bank(name, cfg.banks[name])),
      s.slot)
  }

  /** Choosing one of the offered branches: sets it and clears its error; nothing else changes. */
  function SelectBranch(s: FormState, branch: string): (r: FormState)
    requires branch in OfferedBranches(s)
    ensures r.values.branch == Some(branch)
    ensures r.errors == s.errors - {BranchKey}
    ensures r.values.(branch := s.values.branch) == s.values
    ensures r.selectedBank == s.selectedBank && OfferedBranches(r) == OfferedBranches(s)
    ensures r.slot == s.slot
  {
    s.(values := s.values.(branch := Some(branch)), errors := s.errors - {BranchKey})
  }

  /** Bank, then a branch, then another bank: the branch is unset again, whatever it was. */
  lemma BankBranchBankClearsBranch(cfg: Config, s: FormState, b1: string, branch: string, b2: string)
    requires b1 in cfg.banks && b2 in cfg.banks && branch in cfg.banks[b1]
    ensures SelectBank(cfg, SelectBranch(SelectBank(cfg, s, b1), branch), b2).values.branch == None
    ensures OfferedBranches(SelectBank(cfg, SelectBranch(SelectBank(cfg, s, b1), branch), b2)) == cfg.banks[b2]
  {
  }

  /** Choosing the same bank twice is the same as choosing it once. */
  lemma SelectBankIdempotent(cfg: Config, s: FormState, name: string)
    requires name in cfg.banks
    ensures SelectBank(cfg, SelectBank(cfg, s, name), name) == SelectBank(cfg, s, name)
  {
  }

  // ---------------------------------------------------------------------
  // Other header fields

  /** A change to one of the other header inputs: the box's text, the picked range, the chosen status. */
  datatype HeaderEdit =
    | TinText(text: string)
    | ExchangeRateText(text: string)
    | Dates(range: DateRange)
    | AccountNumberText(text: string)
    | ReturnStatusChoice(status: string)
    | UsageText(field: UsageField, text: string)

  /** Writes the edited value into its field of the record. */
  function ApplyEdit(r: Record, e: HeaderEdit): (r': Record)
    ensures r'.bank == r.bank && r'.branch == r.branch && r'.entries == r.entries
    ensures e.TinText? ==> r'.(tin := r.tin) == r && r'.tin == Some(e.text)
    ensures e.ExchangeRateText? ==> r'.(exchangeRate := r.exchangeRate) == r && r'.exchangeRate == Text(e.text)
    ensures e.Dates? ==> r'.(dateRange := r.dateRange) == r && r'.dateRange == Some(e.range)
    ensures e.AccountNumberText? ==> r'.(accountNumber := r.accountNumber) == r && r'.accountNumber == Some(e.text)
    ensures e.ReturnStatusChoice? ==> r'.(returnStatus := r.returnStatus) == r && r'.returnStatus == Some(e.status)
    ensures e.UsageText? ==> r'.(usage := r.usage) == r && e.field in r'.usage && r'.usage[e.field] == Text(e.text)
    ensures e.UsageText? ==> forall f :: f != e.field ==> (f in r'.usage <==> f in r.usage)
    ensures e.UsageText? ==> forall f :: f != e.field && f in r.usage ==> r'.usage[f] == r.usage[f]
  {
    match e
    case TinText(t) => r.(tin := Some(t))
    case ExchangeRateText(t) => r.(exchangeRate := Text(t))
    case Dates(d) => r.(dateRange := Some(d))
    case AccountNumberText(t) => r.(accountNumber := Some(t))
    case ReturnStatusChoice(t) => r.(returnStatus := Some(t))
    case UsageText(f, t) => r.(usage := r.usage[f := Text(t)])
  }

  function Edit(s: FormState, e: HeaderEdit): (r: FormState)
    ensures r.(values := s.values) == s
    ensures r.values.bank == s.values.bank && r.values.branch == s.values.branch
  {
    s.(values := ApplyEdit(s.values, e))
  }

  // ---------------------------------------------------------------------
  // Staging slot, Add, Delete and row edits

  /** Typing into the slot's count box changes only the slot's count. */
  function TypeCount(s: FormState, text: string): (r: FormState)
    ensures r.(slot := s.slot) == s
    ensures r.slot == SetCount(s.slot, text)
  {
    s.(slot := SetCount(s.slot, text))
  }

  function TypeAmount(s: FormState, text: string): (r: FormState)
    ensures r.(slot := s.slot) == s
    ensures r.slot == SetAmount(s.slot, text)
  {
    s.(slot := SetAmount(s.slot, text))
  }

  function ChooseType(s: FormState, t: string): (r: FormState)
    ensures r.(slot := s.slot) == s
    ensures r.slot == SetType(s.slot, t)
  {
    s.(slot := SetType(s.slot, t))
  }

  /** "Add": the staged entry goes to the end of the list unvalidated, and the slot is reset. */
  function Add(s: FormState): (r: FormState)
    ensures |r.values.entries| == |s.values.entries| + 1
    ensures r.values.entries[..|s.values.entries|] == s.values.entries
    ensures r.values.entries[|s.values.entries|] == ToEntry(s.slot)
    ensures r.slot == DefaultSlot
    ensures r.values.(entries := s.values.entries) == s.values
    ensures r.errors == s.errors && r.selectedBank == s.selectedBank
  {
    FormState(
      s.values.(entries := Append(s.values.entries, ToEntry(s.slot))),
      s.errors, s.selectedBank, DefaultSlot)
  }

  /**
   * After a row is deleted its errors go with it and the errors of the rows
   * below move up one row; errors of the header fields stay.
   */
  function ShiftRowErrors(errs: set<FieldKey>, i: nat): (r: set<FieldKey>)
    ensures forall k: FieldKey :: !k.EntryKey? ==> (k in r <==> k in errs)
    ensures forall j: nat, p :: j < i ==> (EntryKey(j, p) in r <==> EntryKey(j, p) in errs)
    ensures forall j: nat, p :: j >= i ==> (EntryKey(j, p) in r <==> EntryKey(j + 1, p) in errs)
  {
    ShiftedBelow(errs, i);
    Shifted(errs, i)
  }

  /** Drops row `i`'s errors and moves every error of a later row up one row. */
  function Shifted(errs: set<FieldKey>, i: nat): set<FieldKey>
  {
    set k | k in errs && !(k.EntryKey? && k.index == i) ::
      if k.EntryKey? && k.index > i then EntryKey(k.index - 1, k.part) else k
  }

  lemma ShiftedBelow(errs: set<FieldKey>, i: nat)
    ensures forall j: nat, p :: j >= i && EntryKey(j + 1, p) in errs ==> EntryKey(j, p) in Shifted(errs, i)
  {
    forall j: nat, p | j >= i && EntryKey(j + 1, p) in errs ensures EntryKey(j, p) in Shifted(errs, i) {
      var k := EntryKey(j + 1, p);
      assert k in errs && !(k.EntryKey? && k.index == i);
    }
  }

  /** "Delete" on row `i`. */
  function Delete(s: FormState, i: nat): (r: FormState)
    requires i < |s.values.entries|
    ensures r.values.entries == RemoveAt(s.values.entries, i)
    ensures r.values.(entries := s.values.entries) == s.values
    ensures r.errors == ShiftRowErrors(s.errors, i)
    ensures r.slot == s.slot && r.selectedBank == s.selectedBank
  {
    s.(values := s.values.(entries := RemoveAt(s.values.entries, i)),
       errors := ShiftRowErrors(s.errors, i))
  }

  /** Adding and then deleting the new last row gives back the record as it was. */
  lemma AddThenDeleteRestores(s: FormState)
    ensures Delete(Add(s), |s.values.entries|).values == s.values
  {
    RemoveAfterAppend(s.values.entries, ToEntry(s.slot));
  }

  /** What is typed into the slot before one "Add": the count text, the amount text, the chosen type. */
  datatype StagedRow = StagedRow(countText: string, amountText: string, transactionType: string)

  /** The slot after typing a row's count, amount and type into it. */
  function Stage(slot: Slot, row: StagedRow): Slot
  {
    SetType(SetAmount(SetCount(slot, row.countText), row.amountText), row.transactionType)
  }

  /** Stages each row in turn and presses "Add" after it. */
  function AddRows(s: FormState, rows: seq<StagedRow>): FormState
    decreases |rows|
  {
    if rows == [] then s
    else
      var staged := ChooseType(TypeAmount(TypeCount(s, rows[0].countText), rows[0].amountText), rows[0].transactionType);
      AddRows(Add(staged), rows[1..])
  }

  /** The slots the rows stage: the first from the current slot, every later one from the slot "Add" resets to. */
  function StagedSlots(from: Slot, rows: seq<StagedRow>): (r: seq<Slot>)
    ensures |r| == |rows|
    ensures |r| > 0 ==> r[0] == Stage(from, rows[0])
    ensures forall k :: 0 < k < |r| ==> r[k] == Stage(DefaultSlot, rows[k])
    decreases |rows|
  {
    if rows == [] then [] else [Stage(from, rows[0])] + StagedSlots(DefaultSlot, rows[1..])
  }

  /**
   * Staging and adding rows one after another commits exactly what `AddEach`
   * commits for the staged slots, and leaves the rest of the form alone.
   */
  lemma {:induction false} AddRowsIsAddEach(s: FormState, rows: seq<StagedRow>)
    ensures AddRows(s, rows).values.entries == AddEach(s.values.entries, StagedSlots(s.slot, rows))
    ensures AddRows(s, rows).values.(entries := s.values.entries) == s.values
    ensures AddRows(s, rows).errors == s.errors && AddRows(s, rows).selectedBank == s.selectedBank
    ensures rows != [] ==> AddRows(s, rows).slot == DefaultSlot
    decreases |rows|
  {
    if rows != [] {
      var staged := ChooseType(TypeAmount(TypeCount(s, rows[0].countText), rows[0].amountText), rows[0].transactionType);
      assert staged.slot == Stage(s.slot, rows[0]);
      var s' := Add(staged);
      AddRowsIsAddEach(s', rows[1..]);
      var slots := StagedSlots(s.slot, rows);
      assert slots[1..] == StagedSlots(DefaultSlot, rows[1..]);
      assert s'.values.entries == Append(s.values.entries, ToEntry(slots[0]));
      if rows[1..] == [] {
        assert AddRows(s, rows) == s';
      }
    }
  }

  /**
   * After staging and adding N rows the list is the old list followed by one
   * entry per row in the order they were added; the first row is staged from
   * whatever the slot held, each later one from the reset slot.
   */
  lemma AddRowsInOrder(s: FormState, rows: seq<StagedRow>)
    ensures |AddRows(s, rows).values.entries| == |s.values.entries| + |rows|
    ensures AddRows(s, rows).values.entries[..|s.values.entries|] == s.values.entries
    ensures |rows| > 0 ==> AddRows(s, rows).values.entries[|s.values.entries|] == ToEntry(Stage(s.slot, rows[0]))
    ensures forall k :: 0 < k < |rows| ==>
      AddRows(s, rows).values.entries[|s.values.entries| + k] == ToEntry(Stage(DefaultSlot, rows[k]))
  {
    AddRowsIsAddEach(s, rows);
    AddEachInOrder(s.values.entries, StagedSlots(s.slot, rows));
  }

  /** A committed row whose one field is replaced. */
  datatype RowEdit = CountText(text: string) | AmountText(text: string) | TypeChoice(t: string)

  function ApplyRowEdit(e: Entry, edit: RowEdit): Entry
  {
    match edit
    case CountText(t) => e.(numberOfTransactions := Text(t))
    case AmountText(t) => e.(amount := Text(t))
    case TypeChoice(t) => e.(transactionType := t)
  }

  /** Editing a field of row `i` in place; the other rows and fields are untouched. */
  function EditRow(s: FormState, i: nat, edit: RowEdit): (r: FormState)
    requires i < |s.values.entries|
    ensures r.values.entries == UpdateAt(s.values.entries, i, ApplyRowEdit(s.values.entries[i], edit))
    ensures r.values.(entries := s.values.entries) == s.values
    ensures r.(values := s.values) == s
  {
    s.(values := s.values.(entries := UpdateAt(s.values.entries, i, ApplyRowEdit(s.values.entries[i], edit))))
  }

  // ---------------------------------------------------------------------
  // Submit

  datatype Outcome = Accepted(record: Record) | Rejected

  datatype Submission = Submission(state: FormState, outcome: Outcome)

  /**
   * Runs the whole schema. Every failing field gets an error and any earlier
   * error disappears; the record is handed on only when nothing fails.
   */
  function Submit(s: FormState): (r: Submission)
    ensures r.outcome.Accepted? <==> Valid(s.values)
    ensures r.outcome.Accepted? ==> r.outcome.record == s.values
    ensures r.outcome.Rejected? <==> r.state.errors != {}
    ensures forall k :: k in r.state.errors <==> !FieldOk(s.values, k)
    ensures r.state.(errors := s.errors) == s
  {
    ValidIffNoErrors(s.values);
    var errs := Failing(s.values);
    Submission(s.(errors := errs), if errs == {} then Accepted(s.values) else Rejected)
  }

  // ---------------------------------------------------------------------
  // Runs of events

  datatype Event =
    | PickBank(name: string)
    | PickBranch(branch: string)
    | Type(edit: HeaderEdit)
    | StageCount(text: string)
    | StageAmount(text: string)
    | StageType(t: string)
    | AddEntry
    | DeleteEntry(index: nat)
    | EditEntry(index: nat, rowEdit: RowEdit)
    | SubmitForm

  /** What the rendered form can offer: listed banks, offered branches, listed statuses, existing rows. */
  predicate Enabled(cfg: Config, s: FormState, ev: Event)
  {
    match ev
    case PickBank(name) => name in cfg.banks
    case PickBranch(b) => b in OfferedBranches(s)
    case Type(e) => e.ReturnStatusChoice? ==> e.status in cfg.returnStatuses
    case DeleteEntry(i) => i < |s.values.entries|
    case EditEntry(i, _) => i < |s.values.entries|
    case _ => true
  }

  function Step(cfg: Config, s: FormState, ev: Event): FormState
    requires Enabled(cfg, s, ev)
  {
    match ev
    case PickBank(name) => SelectBank(cfg, s, name)
    case PickBranch(b) => SelectBranch(s, b)
    case Type(e) => Edit(s, e)
    case StageCount(t) => TypeCount(s, t)
    case StageAmount(t) => TypeAmount(s, t)
    case StageType(t) => ChooseType(s, t)
    case AddEntry => Add(s)
    case DeleteEntry(i) => Delete(s, i)
    case EditEntry(i, e) => EditRow(s, i, e)
    case SubmitForm => Submit(s).state
  }

  /** The state after a sequence of events, or `None` if one of them cannot be offered. */
  function Run(cfg: Config, s: FormState, evs: seq<Event>): Option<FormState>
    decreases |evs|
  {
    if evs == [] then Some(s)
    else if !Enabled(cfg, s, evs[0]) then None
    else Run(cfg, Step(cfg, s, evs[0]), evs[1..])
  }

  /**
   * What holds in every state the form can reach: a chosen bank is a row of the
   * table and is the record's bank, a set branch is one the chosen bank offers,
   * and a set return status is a listed one.
   */
  predicate Consistent(cfg: Config, s: FormState)
  {
    && (s.selectedBank.Some? ==>
          && s.selectedBank.value.name in cfg.banks
          && cfg.banks[s.selectedBank.value.name] == s.selectedBank.value.branches
          && s.values.bank == Some(s.selectedBank.value.name))
    && (s.values.bank.Some? ==> s.selectedBank.Some?)
    && (s.values.branch.Some? ==> s.values.branch.value in OfferedBranches(s))
    && (s.values.returnStatus.Some? ==> s.values.returnStatus.value in cfg.returnStatuses)
  }

  /** At mount no bank is chosen, so no branch is offered, and the state is consistent. */
  lemma InitConsistent(cfg: Config)
    ensures OfferedBranches(Init) == [] && Init.slot == Slot(0, 0.0, "Withdrawal")
    ensures Consistent(cfg, Init)
  {
  }

  lemma StepPreservesConsistent(cfg: Config, s: FormState, ev: Event)
    requires Consistent(cfg, s) && Enabled(cfg, s, ev)
    ensures Consistent(cfg, Step(cfg, s, ev))
  {
  }

  lemma {:induction false} RunPreservesConsistent(cfg: Config, s: FormState, evs: seq<Event>)
    requires Consistent(cfg, s) && Run(cfg, s, evs).Some?
    ensures Consistent(cfg, Run(cfg, s, evs).value)
    decreases |evs|
  {
    if evs != [] {
      StepPreservesConsistent(cfg, s, evs[0]);
      RunPreservesConsistent(cfg, Step(cfg, s, evs[0]), evs[1..]);
    }
  }

  /**
   * The schema only asks for some bank and some branch, yet whatever the form
   * accepts names a bank of the table, one of that bank's branches, and a
   * listed return status.
   */
  lemma AcceptedBankAndBranchMatchTable(cfg: Config, evs: seq<Event>)
    requires Run(cfg, Init, evs).Some?
    requires Submit(Run(cfg, Init, evs).value).outcome.Accepted?
    ensures var r := Submit(Run(cfg, Init, evs).value).outcome.record;
      && r.bank.value in cfg.banks
      && r.branch.value in cfg.banks[r.bank.value]
      && r.returnStatus.value in cfg.returnStatuses
  {
    InitConsistent(cfg);
    RunPreservesConsistent(cfg, Init, evs);
  }

  // ---------------------------------------------------------------------
  // Consequences for submission

  /** An "Add" straight after an "Add" commits the default slot, and the record can no longer be submitted. */
  lemma SecondAddBlocksSubmit(s: FormState)
    ensures !Valid(Add(Add(s)).values)
    ensures Submit(Add(Add(s))).outcome == Rejected
  {
    var r := Add(Add(s));
    DefaultEntryRejected();
    assert r.values.entries[|r.values.entries| - 1] == ToEntry(DefaultSlot);
  }

  /** An added entry passes at submit only if the slot held a count of at least 1 when "Add" was pressed. */
  lemma AddedEntryNeedsCount(s: FormState)
    requires Valid(Add(s).values)
    ensures s.slot.numberOfTransactions >= 1
    ensures s.slot.amount >= 0.0 && s.slot.transactionType in TransactionTypes
  {
    var es := Add(s).values.entries;
    assert EntryOk(es[|es| - 1]);
    ToEntryOk(s.slot);
  }

  /**
   * In a submittable form, typing text that reads as 0 into a row's count makes
   * submission fail; typing text that reads as 1 there afterwards makes it
   * succeed again, all else equal.
   */
  lemma ZeroCountThenOne(s: FormState, i: nat, zero: string, one: string)
    requires Valid(s.values) && i < |s.values.entries|
    requires JsNumber(zero) == Some(0.0) && JsNumber(one) == Some(1.0)
    ensures Submit(EditRow(s, i, CountText(zero))).outcome == Rejected
    ensures Submit(EditRow(EditRow(s, i, CountText(zero)), i, CountText(one))).outcome.Accepted?
  {
    var es := s.values.entries;
    var s0 := EditRow(s, i, CountText(zero));
    var e0 := es[i].(numberOfTransactions := Text(zero));
    assert s0.values.entries[i] == e0 && !CountOk(e0);
    assert !Valid(s0.values);
    var s1 := EditRow(s0, i, CountText(one));
    var e1 := es[i].(numberOfTransactions := Text(one));
    assert EntryOk(es[i]);
    assert EntryOk(e1);
    assert s1.values.entries == UpdateAt(es, i, e1);
    UpdateAtValidity(es, i, e1);
    assert HeaderValid(s1.values);
  }

  /** The same with the texts "0" and "1". */
  lemma ZeroCountThenOneTyped(s: FormState, i: nat)
    requires Valid(s.values) && i < |s.values.entries|
    ensures Submit(EditRow(s, i, CountText("0"))).outcome == Rejected
    ensures Submit(EditRow(EditRow(s, i, CountText("0")), i, CountText("1"))).outcome.Accepted?
  {
    ShowIntNumber(0);
    ShowIntNumber(1);
    assert ShowInt(0) == "0" && ShowInt(1) == "1";
    ZeroCountThenOne(s, i, "0", "1");
  }
}
