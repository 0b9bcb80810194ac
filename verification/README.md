# LED return form: a Dafny model

This project models the client-side logic of the telecom excise-duty (LED) return form in
`components/ledform.tsx`. It covers three parts:

- **The record validator.** This is the `EntrySchema`/`FormSchema` rule set the form submits through. It is written as
  predicates over a `Record`, and `Failing` gives the set of field paths that validation reports.
- **Bank/branch dependent selection.** Choosing a bank unsets the branch and offers only that bank's branches.
  The bank table and the return-status list are a `Config` parameter.
- **The mobile-money entries.** These are the staging slot with its per-field input rule, "Add" (append, then reset
  the slot), "Delete" (remove a row), and in-place row edits, all on a `seq<Entry>`.

Modules:

- `Optional`: `None` stands for `undefined`/`null`.
- `NumberText`: character classes, decimal numerals, and JavaScript's `Number`, `parseInt`, `parseFloat` and `Math.trunc`
  on them.
- `Schema`: the record and its rules.
- `Entries`: the slot and the list operations on sequences.
- `LedForm`: the form state, one step function per user action, the submit step, runs of events, and the invariant that
  every reachable state keeps.
- `Scenarios`: a worked run from mounting the form to an accepted submission.

Form values are `Missing | Text(s) | Num(x)`. They are the raw value the form library holds: never set, the text of an
input box, or a number the program stored. `z.coerce.number()` is modelled on exactly these values, with numbers as
`real`.

The schema is looser than the form's inputs, and the model follows the schema as written:

- `bank`, `branch` and `returnStatus` only have to be strings (`z.string()`), so the empty string passes.
- The schema does not check that `branch` belongs to `bank`, that `bank` or `returnStatus` are listed values, or that
  `dateRange.from` comes before `to`. The model proves the membership facts for every state the form can reach
  (`LedForm.AcceptedBankAndBranchMatchTable`). The order of the dates is not checked anywhere.
- A row edit stores the text typed into the row's input box. `z.coerce.number()` converts it at submit.

## Model

| member | source | states |
|---|---|---|
| `Schema.MatchRepeats` | components/ledform.tsx:60-79 | The anchored class-repeat regex test (`^\d{10}$`, `^[a-zA-Z0-9]{1,15}$`) accepts exactly when the length is within bounds and every character is in the class. |
| `Schema.TinExactly` | components/ledform.tsx:60-62 | A TIN is accepted iff it has exactly 10 characters, each an ASCII digit 0-9. |
| `Schema.AccountNumberExactly` | components/ledform.tsx:74-79 | An account number is accepted iff its length is 1 to 15 and every character is in a-z, A-Z or 0-9. So "" and anything longer than 15 are rejected. |
| `Schema.AccountNumberRejectsSymbol` | components/ledform.tsx:74-79 | One character outside `[a-zA-Z0-9]`, at any position, rejects the account number. |
| `Schema.Failing` | components/ledform.tsx:59-101 | A field path is reported as failing exactly when its rule fails. Nested dates are reported only when the range object exists. Rows and usage figures are reported only when they exist. |
| `Schema.ValidIffNoErrors` | components/ledform.tsx:59-101 | The whole record passes the schema iff validation reports no failing path at all. Validation is all-or-nothing. |
| `Schema.ValidEntriesSplit` | components/ledform.tsx:100 | Appending an entry keeps the record valid iff the record was valid and the new entry is valid. |
| `Schema.EmptyEntriesAccepted` | components/ledform.tsx:100 | With an empty entry list the record is valid exactly when every header rule holds. |
| `NumberText.ParseIntIsTrunc` | components/ledform.tsx:164-166 | On numeric text where `parseInt` yields a number, that number is `Number`'s value truncated toward zero. |
| `NumberText.ParseFloatIsNumber` | components/ledform.tsx:186-188 | On numeric text, `parseFloat` (sign, whole digits read left to right, fraction digits each a place further down) gives the same value as `Number` (place value of the digits over 10^k). |
| `NumberText.ShowIntNumber` | components/ledform.tsx:164-166 | The decimal text of any integer reads back as that integer under both `Number` and `parseInt`. |
| `Entries.StagedCount` | components/ledform.tsx:158-167 | Count box, corrected (see Findings): wherever the box as written yields a number the corrected rule yields the same one, and for every text `Number` accepts the count lies within 1 of `Number`'s value on the side of zero. |
| `Entries.TypeCountRoundTrip` | components/ledform.tsx:158-167 | Typing the decimal form of n into the count box stages exactly n, whatever was staged before. |
| `Entries.StagedAmount` | components/ledform.tsx:180-189 | Amount box: text `Number` rejects keeps the previous amount, and numeric text gives its value. |
| `Entries.TypeAmountRoundTrip` | components/ledform.tsx:180-189 | Typing the decimal form of an integer into the amount box stages exactly that amount. |
| `Entries.SetCount` | components/ledform.tsx:158-167 | The count setter changes only the count; the amount and type are kept (the spread). |
| `Entries.SetAmount` | components/ledform.tsx:180-189 | The amount setter changes only the amount; the count and type are kept. |
| `Entries.SetType` | components/ledform.tsx:198-207 | The type select changes only the type; the count and amount are kept. |
| `Entries.RejectedTextKeepsSlot` | components/ledform.tsx:158-189 | Non-empty text that `Number` rejects leaves the whole slot unchanged, in either box. |
| `Entries.ToEntry` | components/ledform.tsx:236-243 | The appended entry carries the slot's count, amount and type unchanged. |
| `Entries.ToEntryOk` | components/ledform.tsx:53-57 | An added entry passes the entry schema iff the slot held count ≥ 1, amount ≥ 0 and one of the three types. |
| `Entries.DefaultEntryRejected` | components/ledform.tsx:54 | The default slot {0, 0, Withdrawal}, added as it is, fails `numberOfTransactions` min 1. |
| `Entries.Append` | components/ledform.tsx:236-243 | Append grows the list by one, keeps the old prefix, and puts the entry last. |
| `Entries.RemoveAt` | components/ledform.tsx:325 | Removing row i shortens the list by one. Rows before i are kept and later rows shift up in order. Exactly one occurrence of the removed entry leaves the multiset. |
| `Entries.RemoveAfterAppend` | components/ledform.tsx:325 | Removing the just-appended last row restores the previous list. |
| `Entries.AddEachInOrder` | components/ledform.tsx:235-249 | Adding N slots in turn yields the old list followed by the N entries in insertion order. |
| `Entries.UpdateAt` | components/ledform.tsx:269-319 | A row edit replaces row i and keeps the length and every other row. |
| `Entries.UpdateAtValidity` | components/ledform.tsx:53-57 | After a row edit the list is valid iff the edited row and all other rows are valid. |
| `LedForm.SelectBank` | components/ledform.tsx:473-479 | Choosing bank B sets `bank = B`, unsets `branch`, clears only the bank error, offers exactly B's branches, and changes nothing else. |
| `LedForm.SelectBranch` | components/ledform.tsx:537-545 | Choosing an offered branch sets it and clears only its error. The bank, the offered branches, the slot and the other fields are unchanged. |
| `LedForm.BankBranchBankClearsBranch` | components/ledform.tsx:473-479 | Bank B, any branch of B, then bank B′: the branch is unset and B′'s branches are offered. |
| `LedForm.SelectBankIdempotent` | components/ledform.tsx:473-479 | Choosing the same bank twice is the same as choosing it once. |
| `LedForm.ApplyEdit` | components/ledform.tsx:376-432 | Each header input writes the typed text, picked range or chosen status into its own field, and every other field of the record is unchanged; a usage box writes its figure and every other figure keeps its presence and value. |
| `LedForm.Edit` | components/ledform.tsx:571-620 | A header input change touches only the record, never the bank or branch, the errors or the slot. |
| `LedForm.TypeCount` | components/ledform.tsx:158-167 | Typing in the slot's count box changes only the slot. |
| `LedForm.TypeAmount` | components/ledform.tsx:180-189 | Typing in the slot's amount box changes only the slot. |
| `LedForm.ChooseType` | components/ledform.tsx:198-207 | Choosing the slot's type changes only the slot. |
| `LedForm.Add` | components/ledform.tsx:235-249 | "Add" makes the list `old + [staged]` without validating it, resets the slot to {0, 0, Withdrawal}, and leaves the rest of the record, the errors and the bank unchanged. |
| `LedForm.AddRowsIsAddEach` | components/ledform.tsx:155-249 | Typing a count, an amount and a type and pressing "Add", row after row, commits what appending each staged slot in turn commits, resets the slot, and leaves the header values, errors and bank unchanged. |
| `LedForm.AddRowsInOrder` | components/ledform.tsx:155-249 | After N such rows the list is the old list followed by one entry per row in insertion order; the first row is staged from the slot as it was, every later one from {0, 0, Withdrawal}. |
| `LedForm.ShiftRowErrors` | components/ledform.tsx:325 | After deleting row i, that row's errors go, rows below move their errors up by one, and header errors stay. |
| `LedForm.Delete` | components/ledform.tsx:325 | "Delete" on row i removes exactly that row, re-indexes the row errors and keeps everything else. |
| `LedForm.AddThenDeleteRestores` | components/ledform.tsx:352-355 | "Add" followed by deleting the new last row gives back the record as it was. |
| `LedForm.EditRow` | components/ledform.tsx:269-319 | Editing a field of row i changes only that row of the record. |
| `LedForm.Submit` | components/ledform.tsx:371 | Submission goes ahead iff the record is valid, and hands on the record unchanged. The shown errors become exactly the failing paths, so it is rejected iff some error is shown. |
| `LedForm.InitConsistent` | components/ledform.tsx:337-345 | At mount no branch is offered, the slot is {0, 0, Withdrawal}, and the state invariant holds. |
| `LedForm.StepPreservesConsistent` | components/ledform.tsx:473-545 | Every action the form can offer keeps the invariant. A chosen bank is in the table and is the record's bank. A set branch is one the chosen bank offers. A set status is a listed one. |
| `LedForm.RunPreservesConsistent` | components/ledform.tsx:473-545 | The invariant holds after any sequence of offered actions. |
| `LedForm.AcceptedBankAndBranchMatchTable` | components/ledform.tsx:502-545 | Every record the form accepts from mount names a bank of the table, one of that bank's branches, and a listed return status. |
| `LedForm.SecondAddBlocksSubmit` | components/ledform.tsx:244-248 | Pressing "Add" twice in a row commits the default slot, and submission is then rejected. |
| `LedForm.AddedEntryNeedsCount` | components/ledform.tsx:235-249 | If the record is valid after "Add", the slot held count ≥ 1, amount ≥ 0 and a listed type. |
| `LedForm.ZeroCountThenOne` | components/ledform.tsx:54 | In a submittable form, text reading 0 in a row's count makes submission fail. Text reading 1 there afterwards makes it succeed, all else equal. |
| `LedForm.ZeroCountThenOneTyped` | components/ledform.tsx:54 | The same with the texts "0" and "1". |
| `Scenarios.FilledValues` | components/ledform.tsx:337-355 | The worked run from mount leaves the expected record and a reset slot. |
| `Scenarios.ExpectedValid` | components/ledform.tsx:59-101 | TIN 1234567890, rate 3750, bank ABC Bank, branch Kampala, account AC12345, status Original and one entry {2, 50000, Withdrawal} pass the schema. |
| `Scenarios.FilledFormIsAccepted` | components/ledform.tsx:371 | That run is accepted, and the submitted record holds exactly those values with no usage figure set. |

## Left out

- Rendering is not modelled: JSX, CSS classes, the bank and branch popover open state, and the date-picker widget. Dates are day numbers, and the `Invalid Date` check of `z.date()` is not modelled.
- The internals of zod, `zodResolver`, `useForm` and `useFieldArray` are external libraries. Only the rules they are configured with are modelled.
- After a failed submit the form library re-validates fields as they change; that is not modelled. Errors change only at submit, at bank or branch selection, and when a row is deleted.
- The echo on submit (`console.log`, `toast`, `JSON.stringify`) is output only. `Submit` hands on the record as held, not the copy zod coerces.
- Number syntax: only decimal numerals (optional sign, digits, optional point) and "" are read as numbers. Text with surrounding whitespace, exponents, hex/octal/binary prefixes or `Infinity` is treated as NaN, although JavaScript's `Number` reads it. Numbers are exact reals, with no floating-point rounding.
- The contents of `@/lib/config.json` are not part of this model. The bank table and the status list are a `Config` parameter. A bank name listed twice in the source's list collapses to one map entry.
- The `type="number"` attribute on the account-number input is browser behaviour and is not modelled.
- The usage figures use the schema's field names (`internatDataExempt`, `internatDataChargeable`). The rendered inputs use `internetData…` names, and that mismatch is not modelled.
- app/page.tsx and components/navbar.tsx are page layout and a theme toggle.
- `Entries.StagedCount` models the corrected count rule, not the source's `parseInt` (see Findings). The source's behaviour is `Entries.StagedCountAsWritten`.

## Findings

| source | as written | input that shows it | evidently intended | confidence | as-written member | corrected member |
|---|---|---|---|---|---|---|
| components/ledform.tsx:158-167 | The staging count box guards with `isNaN(Number(v))` and then converts with `parseInt(v)`. | ".5": `Number` gives 0.5, so the guard lets it through, then `parseInt` gives NaN and the staged count becomes NaN. | Text the guard accepts as numeric becomes an integer count, e.g. `Number`'s value truncated toward zero. | medium; not executed | `Entries.StagedCountAsWritten`, `Entries.PointFiveStagesNaN` | `Entries.StagedCount` |
