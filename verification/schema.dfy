/**
 * The tax-return record and the rules it is validated against before
 * submission (the `EntrySchema` and `FormSchema` of components/ledform.tsx).
 */
module Schema {
  import opened Optional
  import opened NumberText

  /**
   * A form value as the form library holds it: never set (`undefined`),
   * the text of an input box, or a number put there by the program.
   */
  datatype Value = Missing | Text(text: string) | Num(x: real)

  /** `z.coerce.number()`: converts with `Number(...)`; `None` is a rejection (NaN). */
  function Coerce(v: Value): Option<real>
  {
    match v
    case Missing => None
    case Text(s) => JsNumber(s)
    case Num(x) => Some(x)
  }

  // ---------------------------------------------------------------------
  // Character-inClass rules

  /** `^[inClass]{lo,hi}$`: between lo and hi characters, each in the inClass. */
  predicate Repeats(s: string, inClass: char -> bool, lo: nat, hi: nat)
  {
    lo <= |s| <= hi && forall i :: 0 <= i < |s| ==> inClass(s[i])
  }

  /** `/^\d{10}$/`. */
  predicate IsTin(s: string) { Repeats(s, IsDigit, 10, 10) }

  /** `/^[a-zA-Z0-9]{1,15}$/`. */
  predicate IsAccountNumber(s: string) { Repeats(s, IsAlphanumeric, 1, 15) }

  /**
   * The regular-expression test, scanning left to right and failing as soon as
   * a character is outside the inClass or the count passes `hi`.
   */
  method MatchRepeats(s: string, inClass: char -> bool, lo: nat, hi: nat) returns (ok: bool)
    ensures ok <==> Repeats(s, inClass, lo, hi)
  {
    var i := 0;
    while i < |s|
      invariant 0 <= i <= |s|
      invariant i <= hi
      invariant forall j :: 0 <= j < i ==> inClass(s[j])
    {
      if !inClass(s[i]) || i == hi {
        return false;
      }
      i := i + 1;
    }
    return lo <= i;
  }

  lemma TinExactly(s: string)
    ensures IsTin(s) <==> |s| == 10 && forall i :: 0 <= i < |s| ==> '0' <= s[i] <= '9'
  {
  }

  lemma AccountNumberExactly(s: string)
    ensures IsAccountNumber(s) <==>
      1 <= |s| <= 15 &&
      forall i :: 0 <= i < |s| ==> 'a' <= s[i] <= 'z' || 'A' <= s[i] <= 'Z' || '0' <= s[i] <= '9'
  {
  }

  /** Any character outside `[a-zA-Z0-9]`, wherever it stands, makes an account number invalid. */
  lemma AccountNumberRejectsSymbol(s: string, k: nat)
    requires k < |s| && !IsAlphanumeric(s[k])
    ensures !IsAccountNumber(s)
  {
  }

  // ---------------------------------------------------------------------
  // Mobile-money entries

  const TransactionTypes: set<string> := {"Withdrawal", "Receiving", "Payment"}

  datatype Entry = Entry(numberOfTransactions: Value, amount: Value, transactionType: string)

  /** The three fields of an entry, as error locations. */
  datatype EntryPart = CountPart | AmountPart | TypePart

  /** `numberOfTransactions: z.coerce.number().min(1)`. */
  predicate CountOk(e: Entry)
  {
    Coerce(e.numberOfTransactions).Some? && Coerce(e.numberOfTransactions).value >= 1.0
  }

  /** `amount: z.coerce.number().min(0)`. */
  predicate AmountOk(e: Entry)
  {
    Coerce(e.amount).Some? && Coerce(e.amount).value >= 0.0
  }

  /** `transactionType: z.enum([...])`. */
  predicate TypeOk(e: Entry) { e.transactionType in TransactionTypes }

  predicate EntryOk(e: Entry) { CountOk(e) && AmountOk(e) && TypeOk(e) }

  predicate PartOk(e: Entry, p: EntryPart)
  {
    match p
    case CountPart => CountOk(e)
    case AmountPart => AmountOk(e)
    case TypePart => TypeOk(e)
  }

  /** `z.array(EntrySchema)`: every element valid; so the empty list is valid. */
  predicate EntriesOk(es: seq<Entry>)
  {
    forall i :: 0 <= i < |es| ==> EntryOk(es[i])
  }

  // ---------------------------------------------------------------------
  // The record

  /** The seventeen optional usage figures, named as the schema names them. */
  datatype UsageField =
    | CardLoadingMobile | NonCardLoadingMobile | StaffAirtimeMobile | ContractAirtimeMobile
    | AdjustmentsMobile | CardLoadingLandline | NonCardLoadingLandline | MonthlyBillLandline
    | Payphone | AdjustmentsLandline | ValueAddedServices | InternationalCallsChargeable
    | InternationalCallsExempt | WithdrawalCharges | InternatDataExempt | InternatDataChargeable
    | FinancialServices

  /** Dates as day numbers; `None` is a side of the range not yet picked. */
  datatype DateRange = DateRange(from: Option<int>, to: Option<int>)

  /** A usage figure absent from `usage` is `undefined`. */
  datatype Record = Record(
    tin: Option<string>,
    exchangeRate: Value,
    dateRange: Option<DateRange>,
    bank: Option<string>,
    branch: Option<string>,
    accountNumber: Option<string>,
    returnStatus: Option<string>,
    usage: map<UsageField, Value>,
    entries: seq<Entry>)

  /** `z.coerce.number().optional()`: undefined passes; anything else must convert. */
  predicate OptionalNumberOk(v: Value)
  {
    v == Missing || Coerce(v).Some?
  }

  predicate TinOk(r: Record) { r.tin.Some? && IsTin(r.tin.value) }

  /** `z.coerce.number().min(1)`. */
  predicate ExchangeRateOk(r: Record)
  {
    Coerce(r.exchangeRate).Some? && Coerce(r.exchangeRate).value >= 1.0
  }

  /** `z.object({from: z.date(), to: z.date()})`; their order is not checked. */
  predicate DateRangeOk(r: Record)
  {
    r.dateRange.Some? && r.dateRange.value.from.Some? && r.dateRange.value.to.Some?
  }

  predicate AccountNumberOk(r: Record)
  {
    r.accountNumber.Some? && IsAccountNumber(r.accountNumber.value)
  }

  predicate UsageOk(r: Record)
  {
    forall f :: f in r.usage ==> OptionalNumberOk(r.usage[f])
  }

  /** Every rule of the schema except the one on `entries`. */
  predicate HeaderValid(r: Record)
  {
    && TinOk(r)
    && ExchangeRateOk(r)
    && DateRangeOk(r)
    && r.bank.Some?
    && r.branch.Some?
    && AccountNumberOk(r)
    && r.returnStatus.Some?
    && UsageOk(r)
  }

  /** The record passes `FormSchema`, so submission goes ahead. */
  predicate Valid(r: Record)
  {
    HeaderValid(r) && EntriesOk(r.entries)
  }

  // ---------------------------------------------------------------------
  // Error locations

  /** Where a validation error is reported: a field path of the record. */
  datatype FieldKey =
    | TinKey | ExchangeRateKey | DateRangeKey | DateFromKey | DateToKey
    | BankKey | BranchKey | AccountNumberKey | ReturnStatusKey
    | UsageKey(field: UsageField)
    | EntryKey(index: nat, part: EntryPart)

  const HeaderKeys: set<FieldKey> :=
    {TinKey, ExchangeRateKey, DateRangeKey, DateFromKey, DateToKey,
     BankKey, BranchKey, AccountNumberKey, ReturnStatusKey}

  const EntryParts: set<EntryPart> := {CountPart, AmountPart, TypePart}

  /**
   * Whether the value at `k` passes its rule. A nested date is only checked
   * when the range object exists, and a key with nothing at it has no error.
   */
  predicate FieldOk(r: Record, k: FieldKey)
  {
    match k
    case TinKey => TinOk(r)
    case ExchangeRateKey => ExchangeRateOk(r)
    case DateRangeKey => r.dateRange.Some?
    case DateFromKey => r.dateRange.None? || r.dateRange.value.from.Some?
    case DateToKey => r.dateRange.None? || r.dateRange.value.to.Some?
    case BankKey => r.bank.Some?
    case BranchKey => r.branch.Some?
    case AccountNumberKey => AccountNumberOk(r)
    case ReturnStatusKey => r.returnStatus.Some?
    case UsageKey(f) => f !in r.usage || OptionalNumberOk(r.usage[f])
    case EntryKey(i, p) => i >= |r.entries| || PartOk(r.entries[i], p)
  }

  /** Every path of the record that holds, or may hold, a value. */
  function Keys(r: Record): set<FieldKey>
  {
    HeaderKeys
    + (set f | f in r.usage :: UsageKey(f))
    + (set i: nat, p | i < |r.entries| && p in EntryParts :: EntryKey(i, p))
  }

  /** Every key whose rule fails lies among the record's keys. */
  lemma KeysCoverFailures(r: Record, k: FieldKey)
    requires !FieldOk(r, k)
    ensures k in Keys(r)
  {
    match k
    case EntryKey(i, p) => assert p in EntryParts;
    case _ =>
  }

  /** The errors a full validation pass reports. */
  function Failing(r: Record): (errs: set<FieldKey>)
    ensures forall k :: k in errs <==> !FieldOk(r, k)
  {
    var errs := set k | k in Keys(r) && !FieldOk(r, k);
    assert forall k :: !FieldOk(r, k) ==> k in errs by {
      forall k | !FieldOk(r, k) ensures k in errs { KeysCoverFailures(r, k); }
    }
    errs
  }

  /** The record is valid exactly when validation reports no error at all. */
  lemma ValidIffNoErrors(r: Record)
    ensures Valid(r) <==> Failing(r) == {}
  {
    if Valid(r) {
      forall k ensures FieldOk(r, k) {
        match k
        case UsageKey(f) =>
        case EntryKey(i, p) =>
          if i < |r.entries| {
            assert EntryOk(r.entries[i]);
          }
        case _ =>
      }
      assert forall k :: k !in Failing(r);
    } else if Failing(r) == {} {
      assert FieldOk(r, TinKey) && FieldOk(r, ExchangeRateKey) && FieldOk(r, DateRangeKey);
      assert FieldOk(r, DateFromKey) && FieldOk(r, DateToKey) && FieldOk(r, BankKey);
      assert FieldOk(r, BranchKey) && FieldOk(r, AccountNumberKey) && FieldOk(r, ReturnStatusKey);
      assert UsageOk(r) by {
        forall f | f in r.usage ensures OptionalNumberOk(r.usage[f]) {
          assert FieldOk(r, UsageKey(f));
        }
      }
      assert EntriesOk(r.entries) by {
        forall i | 0 <= i < |r.entries| ensures EntryOk(r.entries[i]) {
          assert FieldOk(r, EntryKey(i, CountPart));
          assert FieldOk(r, EntryKey(i, AmountPart));
          assert FieldOk(r, EntryKey(i, TypePart));
        }
      }
      assert false;
    }
  }

  /** The list part of validation: the record is valid iff its header is and every entry is. */
  lemma ValidEntriesSplit(r: Record, es: seq<Entry>, e: Entry)
    ensures Valid(r.(entries := es + [e])) <==> Valid(r.(entries := es)) && EntryOk(e)
  {
    var all := es + [e];
    assert all[|es|] == e;
    assert forall i :: 0 <= i < |es| ==> all[i] == es[i];
  }

  /** With all header fields valid, an empty entry list is accepted. */
  lemma EmptyEntriesAccepted(r: Record)
    ensures Valid(r.(entries := [])) <==> HeaderValid(r)
  {
  }
}
