/** The chart of accounts: account codes, their text form, and the keys of the ledger's accounts. */
module Accounts {
  import opened Wrappers
  import opened Amounts

  /** Everything the ledger can refuse with. */
  datatype LedgerError =
    | EventIdMissing | ReferenceTypeInvalid | TooFewEntries | DirectionInvalid | UnsupportedCurrency
    | EntryAmountInvalid | JournalCurrencyMismatch | InvalidAccountCode | LivemodeMismatch | MerchantMismatch
    | Unbalanced | JournalNotFound | AlreadyReversed | ReversalMismatch | DuplicateEvent | AccountInactive
    | AccountNotFound | EventInvalid | FeeExceedsAmount | NoTemplate | ParameterInvalid | ParameterMissing
    | PoisonMessage | BalanceOutOfRange

  datatype AccountType = Asset | Liability | Revenue | Expense

  /** An account code, read as a kind of account and the qualifier some kinds carry. Texts that name
      no kind, or put a colon where there should be none, are Unreadable. */
  datatype Code =
    | PspReceivable(qualifier: string)
    | BankCash(qualifier: string)
    | SettlementSuspense(qualifier: string)
    | MerchantPayable
    | RefundClearing
    | ChargebackReserve
    | FeeRevenue
    | ChargebackFeeRevenue
    | PspFeeExpense(qualifier: string)
    | ChargebackFeeExpense(qualifier: string)
    | Unreadable(text: string)

  predicate Qualified(c: Code) {
    c.PspReceivable? || c.BankCash? || c.SettlementSuspense? || c.PspFeeExpense? || c.ChargebackFeeExpense?
  }

  predicate MerchantLevel(c: Code) {
    c.MerchantPayable? || c.RefundClearing? || c.ChargebackReserve?
  }

  predicate QualifierStart(ch: char) {
    'a' <= ch <= 'z' || '0' <= ch <= '9'
  }

  /** A lower-case letter or digit, then up to 63 of those, underscores or hyphens. */
  predicate ValidQualifier(q: string) {
    && 1 <= |q| <= 64 && QualifierStart(q[0])
    && forall ch | ch in q :: QualifierStart(ch) || ch == '_' || ch == '-'
  }

  predicate ValidCode(c: Code) {
    !c.Unreadable? && (Qualified(c) ==> ValidQualifier(c.qualifier))
  }

  /** The type of a valid code; an invalid one has no entry in the chart. */
  function TypeOf(c: Code): Option<AccountType> {
    if !ValidCode(c) then None
    else match c
      case PspReceivable(_) | BankCash(_) | SettlementSuspense(_) => Some(Asset)
      case MerchantPayable | RefundClearing | ChargebackReserve => Some(Liability)
      case FeeRevenue | ChargebackFeeRevenue => Some(Revenue)
      case _ => Some(Expense)
  }

  // ---- codes as text ----

  function NameOf(c: Code): string {
    match c
    case PspReceivable(_) => "psp_receivable"
    case BankCash(_) => "bank_cash"
    case SettlementSuspense(_) => "settlement_suspense"
    case MerchantPayable => "merchant_payable"
    case RefundClearing => "refund_clearing"
    case ChargebackReserve => "chargeback_reserve"
    case FeeRevenue => "fee_revenue"
    case ChargebackFeeRevenue => "chargeback_fee_revenue"
    case PspFeeExpense(_) => "psp_fee_expense"
    case ChargebackFeeExpense(_) => "chargeback_fee_expense"
    case Unreadable(text) => text
  }

  /** The code a kind name and a qualifier denote: the entry of the chart, if there is one. */
  function InChart(name: string, q: string): Option<Code> {
    if name == "psp_receivable" then Some(PspReceivable(q))
    else if name == "bank_cash" then Some(BankCash(q))
    else if name == "settlement_suspense" then Some(SettlementSuspense(q))
    else if name == "merchant_payable" then Some(MerchantPayable)
    else if name == "refund_clearing" then Some(RefundClearing)
    else if name == "chargeback_reserve" then Some(ChargebackReserve)
    else if name == "fee_revenue" then Some(FeeRevenue)
    else if name == "chargeback_fee_revenue" then Some(ChargebackFeeRevenue)
    else if name == "psp_fee_expense" then Some(PspFeeExpense(q))
    else if name == "chargeback_fee_expense" then Some(ChargebackFeeExpense(q))
    else None
  }

  datatype Halves = Halves(before: string, after: string, found: bool)

  /** The text around the first colon; without one, the whole text and nothing. */
  function Cut(s: string): Halves {
    if s == "" then Halves("", "", false)
    else if s[0] == ':' then Halves("", s[1..], true)
    else
      var rest := Cut(s[1..]);
      Halves([s[0]] + rest.before, rest.after, rest.found)
  }

  function ParseCode(text: string): Result<Code, LedgerError> {
    var h := Cut(text);
    var c := InChart(h.before, h.after);
    if c.None? then Err(InvalidAccountCode)
    else if Qualified(c.value) then
      if !h.found || !ValidQualifier(h.after) then Err(InvalidAccountCode) else Ok(c.value)
    else if h.found then Err(InvalidAccountCode) else Ok(c.value)
  }

  /** The text of a code built from a kind and a qualifier; a qualifier goes only with the kinds
      that need one. */
  function CodeFor(kind: Code, q: string): Result<string, LedgerError> {
    if kind.Unreadable? then Err(InvalidAccountCode)
    else if Qualified(kind) then
      if ValidQualifier(q) then Ok(NameOf(kind) + ":" + q) else Err(InvalidAccountCode)
    else if q != "" then Err(InvalidAccountCode) else Ok(NameOf(kind))
  }

  function QualifierOf(c: Code): string {
    if Qualified(c) then c.qualifier else ""
  }

  predicate NoColon(s: string) {
    forall i | 0 <= i < |s| :: s[i] != ':'
  }

  lemma NameLetters(c: Code)
    requires !c.Unreadable?
    ensures ':' !in NameOf(c)
  {
  }

  lemma NamesHaveNoColon(c: Code)
    requires !c.Unreadable?
    ensures NoColon(NameOf(c))
  {
    NameLetters(c);
    var s := NameOf(c);
    NoColonIn(s);
  }

  lemma NoColonIn(s: string)
    requires ':' !in s
    ensures NoColon(s)
  {
    forall i | 0 <= i < |s| ensures s[i] != ':' { assert s[i] in s; }
  }

  lemma NamesAreInChart(c: Code, q: string)
    requires !c.Unreadable? && q == QualifierOf(c)
    ensures InChart(NameOf(c), q) == Some(c)
  {
    NamesDiffer();
  }

  /** Names of equal length differ in a letter. */
  lemma NamesDiffer()
    ensures "refund_clearing" != "psp_fee_expense" && "chargeback_fee_revenue" != "chargeback_fee_expense"
  {
    assert "refund_clearing"[0] == 'r' && "psp_fee_expense"[0] == 'p';
    assert "chargeback_fee_revenue"[15] == 'r' && "chargeback_fee_expense"[15] == 'e';
  }

  lemma InChartNames(name: string, q: string)
    requires InChart(name, q).Some?
    ensures var c := InChart(name, q).value;
            !c.Unreadable? && NameOf(c) == name && (Qualified(c) ==> c.qualifier == q)
  {
    hide ValidQualifier;
  }

  lemma {:induction false} CutJoined(a: string, q: string)
    requires NoColon(a)
    ensures Cut(a + ":" + q) == Halves(a, q, true)
  {
    var s := a + ":" + q;
    if a == "" {
      assert s == [':'] + q && s[1..] == q;
    } else {
      assert s[1..] == a[1..] + ":" + q && s[0] == a[0];
      CutJoined(a[1..], q);
    }
  }

  lemma {:induction false} CutWhole(a: string)
    requires NoColon(a)
    ensures Cut(a) == Halves(a, "", false)
  {
    if a != "" {
      CutWhole(a[1..]);
    }
  }

  lemma {:induction false} CutParts(s: string)
    ensures s == Cut(s).before + (if Cut(s).found then ":" + Cut(s).after else "")
    ensures !Cut(s).found ==> Cut(s).after == ""
  {
    if s != "" && s[0] != ':' {
      CutParts(s[1..]);
      assert s == [s[0]] + s[1..];
    } else if s != "" {
      assert s == ":" + s[1..];
    }
  }

  /** Reading and writing codes are inverse: a text parses to a code exactly when the code is valid
      and the text is the one written for it. So distinct valid codes have distinct texts. */
  lemma ParseInvertsCodeFor(text: string, c: Code)
    ensures ParseCode(text) == Ok(c) <==> ValidCode(c) && CodeFor(c, QualifierOf(c)) == Ok(text)
  {
    if ParseCode(text) == Ok(c) { ParsedIsWritten(text, c); }
    if ValidCode(c) && CodeFor(c, QualifierOf(c)) == Ok(text) { WrittenIsParsed(text, c); }
  }

  lemma ParsedIsWritten(text: string, c: Code)
    requires ParseCode(text) == Ok(c)
    ensures ValidCode(c) && CodeFor(c, QualifierOf(c)) == Ok(text)
  {
    var h := Cut(text);
    CutParts(text);
    InChartNames(h.before, h.after);
    if Qualified(c) { assert NameOf(c) + ":" + c.qualifier == h.before + (":" + h.after); }
    else { assert h.before + "" == h.before; }
  }

  lemma WrittenIsParsed(text: string, c: Code)
    requires ValidCode(c) && CodeFor(c, QualifierOf(c)) == Ok(text)
    ensures ParseCode(text) == Ok(c)
  {
    NamesHaveNoColon(c);
    NamesAreInChart(c, QualifierOf(c));
    if Qualified(c) { CutJoined(NameOf(c), c.qualifier); } else { CutWhole(NameOf(c)); }
  }

  /** The chart, account by account: the text written for it, its type, and whether each merchant has its own. */
  lemma ChartExactly(q: string)
    requires ValidQualifier(q)
    ensures CodeFor(PspReceivable(q), q) == Ok("psp_receivable" + ":" + q)
    ensures CodeFor(BankCash(q), q) == Ok("bank_cash" + ":" + q)
    ensures CodeFor(SettlementSuspense(q), q) == Ok("settlement_suspense" + ":" + q)
    ensures CodeFor(MerchantPayable, "") == Ok("merchant_payable")
    ensures CodeFor(RefundClearing, "") == Ok("refund_clearing")
    ensures CodeFor(ChargebackReserve, "") == Ok("chargeback_reserve")
    ensures CodeFor(FeeRevenue, "") == Ok("fee_revenue")
    ensures CodeFor(ChargebackFeeRevenue, "") == Ok("chargeback_fee_revenue")
    ensures CodeFor(PspFeeExpense(q), q) == Ok("psp_fee_expense" + ":" + q)
    ensures CodeFor(ChargebackFeeExpense(q), q) == Ok("chargeback_fee_expense" + ":" + q)
    ensures TypeOf(PspReceivable(q)) == TypeOf(BankCash(q)) == TypeOf(SettlementSuspense(q)) == Some(Asset)
    ensures TypeOf(MerchantPayable) == TypeOf(RefundClearing) == TypeOf(ChargebackReserve) == Some(Liability)
    ensures TypeOf(FeeRevenue) == TypeOf(ChargebackFeeRevenue) == Some(Revenue)
    ensures TypeOf(PspFeeExpense(q)) == TypeOf(ChargebackFeeExpense(q)) == Some(Expense)
    ensures forall c :: MerchantLevel(c) <==> c in {MerchantPayable, RefundClearing, ChargebackReserve}
  {
    hide ValidQualifier;
  }

  // ---- the stored form, which also says live or test ----

  const TEST_PREFIX: string := "test:"

  function StorageCode(code: string, live: bool): string {
    if live then code else TEST_PREFIX + code
  }

  function ParseStorageCode(stored: string): (string, bool) {
    if TEST_PREFIX <= stored then (stored[|TEST_PREFIX|..], false) else (stored, true)
  }

  /** The stored form gives the pair back, except for a live code that itself starts with "test:". */
  lemma StorageRoundTrip(code: string, live: bool)
    ensures ParseStorageCode(StorageCode(code, live)) == (code, live) <==> !live || !(TEST_PREFIX <= code)
  {
    if !live { assert (TEST_PREFIX + code)[|TEST_PREFIX|..] == code; }
  }

  lemma TestCodesDoNotParse(rest: string)
    ensures ParseCode(TEST_PREFIX + rest).Err?
  {
    assert TEST_PREFIX + rest == "test" + ":" + rest;
    CutJoined("test", rest);
  }

  /** A code that parses never starts that way, so stored accounts come back unchanged. */
  lemma ParsedCodesAreStored(code: string, live: bool)
    requires ParseCode(code).Ok?
    ensures ParseStorageCode(StorageCode(code, live)) == (code, live)
  {
    StorageRoundTrip(code, live);
    if TEST_PREFIX <= code {
      assert code == TEST_PREFIX + code[|TEST_PREFIX|..];
      TestCodesDoNotParse(code[|TEST_PREFIX|..]);
    }
  }

  // ---- account keys ----

  /** Merchant NIL is the platform itself. */
  const NIL: nat := 0

  datatype AccountKey = AccountKey(merchant: nat, code: Code, currency: Currency, live: bool) {

    predicate IsSystem() {
      merchant == NIL
    }

    function Validate(): Outcome<LedgerError> {
      if !ValidCode(code) then Fail(InvalidAccountCode)
      else if MerchantLevel(code) == IsSystem() then Fail(InvalidAccountCode)
      else if !Supported(currency) then Fail(UnsupportedCurrency)
      else Pass
    }
  }

  /** An account is in order exactly when its code is in the chart, its currency is supported, and it belongs to a
      merchant if and only if the chart says each merchant has its own. */
  lemma AccountExactly(k: AccountKey)
    ensures k.Validate()
            == if !ValidCode(k.code)
                  || (k.merchant == NIL) == (k.code in {MerchantPayable, RefundClearing, ChargebackReserve})
               then Fail(InvalidAccountCode)
               else if !Supported(k.currency) then Fail(UnsupportedCurrency) else Pass
    ensures ValidCode(k.code) <==>
              || k.code in {MerchantPayable, RefundClearing, ChargebackReserve, FeeRevenue, ChargebackFeeRevenue}
              || (exists q :: ValidQualifier(q)
                              && k.code in {PspReceivable(q), BankCash(q), SettlementSuspense(q), PspFeeExpense(q),
                                            ChargebackFeeExpense(q)})
  {
    hide ValidQualifier;
  }

  lemma QualifierExactly(q: string)
    ensures ValidQualifier(q) <==>
              0 < |q| < 65 && q[0] != '_' && q[0] != '-'
              && forall i | 0 <= i < |q| :: 'a' <= q[i] <= 'z' || '0' <= q[i] <= '9' || q[i] == '_' || q[i] == '-'
  {
    if ValidQualifier(q) {
      forall i | 0 <= i < |q| ensures 'a' <= q[i] <= 'z' || '0' <= q[i] <= '9' || q[i] == '_' || q[i] == '-' {
        assert q[i] in q;
      }
    }
  }

  /** Debits raise assets and expenses, credits raise the rest. */
  predicate DebitNormal(c: Code) {
    TypeOf(c) == Some(Asset) || TypeOf(c) == Some(Expense)
  }
}
