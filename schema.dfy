/**
 * The zod schemas of the forms: the address prefix check, the ETH amount
 * pattern, the two closed sets of ERC20 function names, and the three form
 * schemas built from them.
 */
module Schema {
  import opened Wrappers
  import opened JsStrings

  // ---------------------------------------------------------------------------
  // Addresses

  /**
   * `z.string().startsWith("0x")`: an address passes exactly when its first
   * two characters are `0` and a lower-case `x`; nothing beyond them is checked.
   */
  predicate HasAddressPrefix(s: string)
    ensures HasAddressPrefix(s) <==> |s| >= 2 && s[0] == '0' && s[1] == 'x'
  {
    StartsWith(s, "0x")
  }

  /** Length and hex digits are not checked; the prefix is case-sensitive. */
  lemma AddressPrefixExamples()
    ensures HasAddressPrefix("0xINVALID") && HasAddressPrefix("0x")
    ensures !HasAddressPrefix("") && !HasAddressPrefix("0") && !HasAddressPrefix("0X1234") && !HasAddressPrefix("x0")
  {
  }

  // ---------------------------------------------------------------------------
  // ETH amounts: /^[1-9]([0-9]+)?(?:\.[0-9]{1,2})?$|^0$|^[0-9]\.[0-9][0-9]?$/

  predicate IsDigit(c: char) { '0' <= c <= '9' }

  predicate IsNonZeroDigit(c: char) { '1' <= c <= '9' }

  predicate AllDigits(s: string)
  {
    forall i :: 0 <= i < |s| ==> IsDigit(s[i])
  }

  /** `(?:\.[0-9]{1,2})?` matching the whole of `f`. */
  predicate OptionalFraction(f: string)
  {
    f == "" || (f[0] == '.' && 2 <= |f| <= 3 && AllDigits(f[1..]))
  }

  /** First alternative, `^[1-9]([0-9]+)?(?:\.[0-9]{1,2})?$`: the digit run may end at any `k`. */
  predicate AmountAlt1(s: string)
    ensures AmountAlt1(s) ==> |s| >= 1 && IsNonZeroDigit(s[0]) && IsDigit(s[|s| - 1])
  {
    |s| >= 1 && IsNonZeroDigit(s[0]) &&
    exists k :: 1 <= k <= |s| && AllDigits(s[1..k]) && OptionalFraction(s[k..])
  }

  /** Second alternative, `^0$`. */
  predicate AmountAlt2(s: string)
    ensures AmountAlt2(s) <==> |s| == 1 && s[0] == '0'
  {
    s == "0"
  }

  /** Third alternative, `^[0-9]\.[0-9][0-9]?$`. */
  predicate AmountAlt3(s: string)
    ensures AmountAlt3(s) ==> IndexOf(s, '.') == 1 && IsDigit(s[|s| - 1])
  {
    3 <= |s| <= 4 && IsDigit(s[0]) && s[1] == '.' && AllDigits(s[2..])
  }

  /** The amount regex: one of its three alternatives matches the whole string. */
  predicate MatchesAmountPattern(s: string)
    ensures MatchesAmountPattern(s) ==> s != "" && IsDigit(s[0]) && IsDigit(s[|s| - 1])
  {
    AmountAlt1(s) || AmountAlt2(s) || AmountAlt3(s)
  }

  /** A decimal integer literal without leading zeros (only `0` itself may start with `0`). */
  predicate IsCanonicalInteger(d: string)
  {
    |d| >= 1 && AllDigits(d) && (d[0] == '0' ==> |d| == 1)
  }

  /**
   * Reference reading of the pattern: the part before the first `.` is a
   * canonical integer, and if there is a `.`, one or two digits follow it.
   */
  predicate IsCanonicalAmount(s: string)
  {
    var i := IndexOf(s, '.');
    IsCanonicalInteger(s[..i]) && (i == |s| || (1 <= |s| - (i + 1) <= 2 && AllDigits(s[i + 1..])))
  }

  /** The regex accepts exactly the canonical amounts. */
  lemma AmountPatternIsCanonical(s: string)
    ensures MatchesAmountPattern(s) <==> IsCanonicalAmount(s)
  {
    var i := IndexOf(s, '.');
    if AmountAlt1(s) {
      var k :| 1 <= k <= |s| && AllDigits(s[1..k]) && OptionalFraction(s[k..]);
      forall j | 0 <= j < k ensures s[j] != '.' {
        if j > 0 { assert s[1..k][j - 1] == s[j]; }
      }
      if k < |s| { assert s[k..][0] == s[k]; }
      IndexOfAt(s, '.', k);
      assert forall j :: 1 <= j < k ==> s[..k][j] == s[1..k][j - 1];
      assert IsCanonicalInteger(s[..k]);
      if k < |s| { assert s[k + 1..] == s[k..][1..]; }
    } else if AmountAlt2(s) {
      IndexOfAt(s, '.', 1);
    } else if AmountAlt3(s) {
      IndexOfAt(s, '.', 1);
    }
    if IsCanonicalAmount(s) {
      assert s[..i][0] == s[0];
      if s[0] == '0' {
        if i == |s| {
          assert s == s[..i];
          assert AmountAlt2(s);
        } else {
          assert s[2..] == s[i + 1..];
          assert AmountAlt3(s);
        }
      } else {
        assert AllDigits(s[1..i]) by {
          forall j | 0 <= j < i - 1 ensures IsDigit(s[1..i][j]) {
            assert s[1..i][j] == s[..i][j + 1];
          }
        }
        if i < |s| {
          assert s[i..][1..] == s[i + 1..];
        }
        assert OptionalFraction(s[i..]);
        assert AmountAlt1(s);
      }
    }
  }

  /** A canonical amount has only digits and `.` characters. */
  lemma CanonicalAmountChars(s: string)
    requires IsCanonicalAmount(s)
    ensures forall j :: 0 <= j < |s| ==> IsDigit(s[j]) || s[j] == '.'
  {
    var i := IndexOf(s, '.');
    var intPart, rest := s[..i], if i < |s| then s[i + 1..] else "";
    forall j | 0 <= j < |s| ensures IsDigit(s[j]) || s[j] == '.' {
      if j < i {
        assert intPart[j] == s[j];
      } else if j > i {
        assert rest[j - (i + 1)] == s[j];
      }
    }
  }

  /** A canonical amount has at most one `.`. */
  lemma CanonicalAmountOneDot(s: string)
    requires IsCanonicalAmount(s)
    ensures Count(s, '.') <= 1
  {
    var i := IndexOf(s, '.');
    if i < |s| {
      var intPart, rest := s[..i], s[i + 1..];
      assert s == intPart + ([s[i]] + rest);
      CountAppend(intPart, [s[i]] + rest, '.');
      CountAppend([s[i]], rest, '.');
      assert '.' !in intPart;
      assert '.' !in rest by {
        forall j | 0 <= j < |rest| ensures rest[j] != '.' {
          assert IsDigit(rest[j]);
        }
      }
    } else {
      assert '.' !in s;
    }
  }

  /** Every accepted amount is digits with at most one `.`, followed by one or two digits. */
  lemma AcceptedAmountShape(s: string)
    requires MatchesAmountPattern(s)
    ensures |s| >= 1 && IsDigit(s[0])
    ensures forall j :: 0 <= j < |s| ==> IsDigit(s[j]) || s[j] == '.'
    ensures Count(s, '.') <= 1
    ensures '.' in s ==> 1 <= |s| - (IndexOf(s, '.') + 1) <= 2
  {
    AmountPatternIsCanonical(s);
    assert s[..IndexOf(s, '.')][0] == s[0];
    CanonicalAmountChars(s);
    CanonicalAmountOneDot(s);
  }

  /** A non-zero leading digit, further digits and an optional one- or two-digit fraction are accepted. */
  lemma NonZeroLeadAccepted(d: char, digits: string, fraction: string)
    requires IsNonZeroDigit(d) && AllDigits(digits)
    requires fraction == "" || (1 <= |fraction| <= 2 && AllDigits(fraction))
    ensures MatchesAmountPattern([d] + digits + (if fraction == "" then "" else "." + fraction))
  {
    var tail := if fraction == "" then "" else "." + fraction;
    var s := [d] + digits + tail;
    var k := 1 + |digits|;
    assert s[1..k] == digits;
    assert s[k..] == tail;
    assert AmountAlt1(s);
  }

  /** One digit (possibly `0`), a `.` and one or two digits are accepted. */
  lemma SingleDigitWithFractionAccepted(d: char, fraction: string)
    requires IsDigit(d) && 1 <= |fraction| <= 2 && AllDigits(fraction)
    ensures MatchesAmountPattern([d, '.'] + fraction)
  {
    var s := [d, '.'] + fraction;
    assert s[2..] == fraction;
    assert AmountAlt3(s);
  }

  /** Sample inputs the pattern accepts. */
  lemma AmountAcceptedExamples()
    ensures MatchesAmountPattern("0") && MatchesAmountPattern("0.05") && MatchesAmountPattern("12.5")
    ensures MatchesAmountPattern("100")
  {
    SingleDigitWithFractionAccepted('0', "05");
    assert ['0', '.'] + "05" == "0.05";
    NonZeroLeadAccepted('1', "2", "5");
    assert "5" != "" && ['1'] + "2" + ("." + "5") == "12.5";
    NonZeroLeadAccepted('1', "00", "");
    assert ['1'] + "00" + "" == "100";
  }

  /** A string with no `.` is rejected when its integer reading is not canonical. */
  lemma RejectedWithoutDot(s: string)
    requires '.' !in s && !IsCanonicalInteger(s)
    ensures !MatchesAmountPattern(s)
  {
    AmountPatternIsCanonical(s);
    IndexOfAt(s, '.', |s|);
    assert s[..|s|] == s;
  }

  /** Leading zeros, a sign, an exponent and the empty string are rejected. */
  lemma AmountRejectedIntegers()
    ensures !MatchesAmountPattern("") && !MatchesAmountPattern("00") && !MatchesAmountPattern("01")
    ensures !MatchesAmountPattern("-1") && !MatchesAmountPattern("+1") && !MatchesAmountPattern("1e5")
  {
    RejectedWithoutDot("");
    RejectedWithoutDot("00");
    RejectedWithoutDot("01");
    assert !IsDigit("-1"[0]);
    RejectedWithoutDot("-1");
    assert !IsDigit("+1"[0]);
    RejectedWithoutDot("+1");
    assert !IsDigit("1e5"[1]);
    RejectedWithoutDot("1e5");
  }

  /** A trailing dot, a missing integer part and a third fractional digit are rejected. */
  lemma AmountRejectedFractions()
    ensures !MatchesAmountPattern("1.") && !MatchesAmountPattern(".5") && !MatchesAmountPattern("1.234")
  {
    AmountPatternIsCanonical("1.");
    IndexOfAt("1.", '.', 1);
    AmountPatternIsCanonical(".5");
    IndexOfAt(".5", '.', 0);
    AmountPatternIsCanonical("1.234");
    IndexOfAt("1.234", '.', 1);
  }

  // ---------------------------------------------------------------------------
  // ERC20 function names

  /** `Erc20Readable`. */
  datatype ReadName = TotalSupply | Name | Symbol | BalanceOf | Decimals

  /** `Erc20Writable`. */
  datatype WriteName = Approve | Transfer | TransferFrom

  const ReadableNames: set<string> := {"totalSupply", "name", "symbol", "balanceOf", "decimals"}

  const WritableNames: set<string> := {"approve", "transfer", "transferFrom"}

  /** The string value of a readable enum member. */
  function ReadNameString(n: ReadName): (s: string)
    ensures s in ReadableNames && s != ""
  {
    match n
    case TotalSupply => "totalSupply"
    case Name => "name"
    case Symbol => "symbol"
    case BalanceOf => "balanceOf"
    case Decimals => "decimals"
  }

  /** The string value of a writable enum member. */
  function WriteNameString(n: WriteName): (s: string)
    ensures s in WritableNames && s != ""
  {
    match n
    case Approve => "approve"
    case Transfer => "transfer"
    case TransferFrom => "transferFrom"
  }

  /** `Erc20Readable` parsing a string: defined exactly on the readable names, inverse to `ReadNameString`. */
  function ParseReadName(s: string): (r: Option<ReadName>)
    ensures r.Some? <==> s in ReadableNames
    ensures r.Some? ==> ReadNameString(r.value) == s
  {
    if s == "totalSupply" then Some(TotalSupply)
    else if s == "name" then Some(Name)
    else if s == "symbol" then Some(Symbol)
    else if s == "balanceOf" then Some(BalanceOf)
    else if s == "decimals" then Some(Decimals)
    else None
  }

  /** `Erc20Writable` parsing a string: defined exactly on the writable names, inverse to `WriteNameString`. */
  function ParseWriteName(s: string): (r: Option<WriteName>)
    ensures r.Some? <==> s in WritableNames
    ensures r.Some? ==> WriteNameString(r.value) == s
  {
    if s == "approve" then Some(Approve)
    else if s == "transfer" then Some(Transfer)
    else if s == "transferFrom" then Some(TransferFrom)
    else None
  }

  /** Printing and then parsing a name gives the name back. */
  lemma NameRoundTrip(r: ReadName, w: WriteName)
    ensures ParseReadName(ReadNameString(r)) == Some(r)
    ensures ParseWriteName(WriteNameString(w)) == Some(w)
  {
  }

  /** No name is both readable and writable, and `allowance` is neither. */
  lemma NameSetsDisjoint()
    ensures ReadableNames !! WritableNames
    ensures "allowance" !in ReadableNames && "allowance" !in WritableNames
    ensures |ReadableNames| == 5 && |WritableNames| == 3
  {
  }

  // ---------------------------------------------------------------------------
  // Form schemas

  /** The form fields a schema looks at; `None` is a field left `undefined`. */
  datatype FormInput = FormInput(contractAddress: Option<string>, functionName: Option<string>, args: Option<string>)

  datatype TransferInput = TransferInput(address: Option<string>, amount: Option<string>)

  /** `z.infer<typeof readErc20Schema>`. */
  datatype ReadValues = ReadValues(contractAddress: string, functionName: ReadName, args: Option<string>)

  /** `z.infer<typeof writeErc20Schema>`. */
  datatype WriteValues = WriteValues(contractAddress: string, functionName: WriteName, args: Option<string>)

  /** `z.infer<typeof sendTransactionSchema>`. */
  datatype TransferValues = TransferValues(address: string, amount: string)

  datatype Field = ContractAddress | FunctionName | Address | Amount

  /** Zod issue codes that these schemas can raise. */
  datatype IssueCode =
    | Required           // the field is undefined
    | InvalidStartsWith  // "Address must start with 0x"
    | InvalidRegex       // "Amount must be a number with up to 2 decimal places"
    | InvalidEnumValue   // not one of the enum's names

  datatype Issue = Issue(path: Field, code: IssueCode)

  const AddressMessage := "Address must start with 0x"
  const AmountMessage := "Amount must be a number with up to 2 decimal places"

  /** The schema's own message for an issue, where it sets one. */
  function CustomMessage(code: IssueCode): (m: Option<string>)
    ensures m.Some? <==> code == InvalidStartsWith || code == InvalidRegex
    ensures code == InvalidStartsWith ==> m == Some("Address must start with 0x")
    ensures code == InvalidRegex ==> m == Some("Amount must be a number with up to 2 decimal places")
  {
    match code
    case InvalidStartsWith => Some(AddressMessage)
    case InvalidRegex => Some(AmountMessage)
    case _ => None
  }

  /** The fields an issue list complains about. */
  function Flagged(issues: seq<Issue>): (fields: set<Field>)
  {
    set k | 0 <= k < |issues| :: issues[k].path
  }

  predicate AddressOk(v: Option<string>) { v.Some? && HasAddressPrefix(v.value) }

  predicate AmountOk(v: Option<string>) { v.Some? && MatchesAmountPattern(v.value) }

  /** The issues a `z.string().startsWith("0x")` field raises. */
  function AddressIssues(path: Field, v: Option<string>): (r: seq<Issue>)
    ensures r == [] <==> AddressOk(v)
    ensures r != [] ==> r == [Issue(path, if v.None? then Required else InvalidStartsWith)]
    ensures r != [] && v.Some? ==> CustomMessage(r[0].code) == Some(AddressMessage)
  {
    match v
    case None => [Issue(path, Required)]
    case Some(s) => if HasAddressPrefix(s) then [] else [Issue(path, InvalidStartsWith)]
  }

  /** The issues the amount field raises. */
  function AmountIssues(v: Option<string>): (r: seq<Issue>)
    ensures r == [] <==> AmountOk(v)
    ensures r != [] ==> r == [Issue(Amount, if v.None? then Required else InvalidRegex)]
    ensures r != [] && v.Some? ==> CustomMessage(r[0].code) == Some(AmountMessage)
  {
    match v
    case None => [Issue(Amount, Required)]
    case Some(s) => if MatchesAmountPattern(s) then [] else [Issue(Amount, InvalidRegex)]
  }

  /** The issues an enum field raises, given the enum's set of names. */
  function NameIssues(names: set<string>, v: Option<string>): (r: seq<Issue>)
    ensures r == [] <==> v.Some? && v.value in names
    ensures r != [] ==> r == [Issue(FunctionName, if v.None? then Required else InvalidEnumValue)]
  {
    match v
    case None => [Issue(FunctionName, Required)]
    case Some(s) => if s in names then [] else [Issue(FunctionName, InvalidEnumValue)]
  }

  lemma FlaggedPair(a: seq<Issue>, b: seq<Issue>, fa: Field, fb: Field)
    requires a == [] || (|a| == 1 && a[0].path == fa)
    requires b == [] || (|b| == 1 && b[0].path == fb)
    ensures Flagged(a + b) == (if a == [] then {} else {fa}) + (if b == [] then {} else {fb})
  {
    var ab := a + b;
    if a != [] { assert ab[0] == a[0]; }
    if b != [] { assert ab[|a|] == b[0]; }
  }

  /**
   * `readErc20Schema.safeParse`: succeeds exactly when the address has the
   * prefix and the name is readable, forwarding the fields; otherwise it
   * reports an issue for every bad field and for no other.
   */
  function ValidateRead(input: FormInput): (r: Result<ReadValues, seq<Issue>>)
    ensures r.Success? <==> AddressOk(input.contractAddress) && input.functionName.Some? && input.functionName.value in ReadableNames
    ensures r.Success? ==> (Some(r.value.contractAddress) == input.contractAddress
                            && Some(ReadNameString(r.value.functionName)) == input.functionName
                            && r.value.args == input.args)
    ensures r.Failure? ==> Flagged(r.error) == (if AddressOk(input.contractAddress) then {} else {ContractAddress})
                                               + (if input.functionName.Some? && input.functionName.value in ReadableNames then {} else {FunctionName})
  {
    var issues := AddressIssues(ContractAddress, input.contractAddress) + NameIssues(ReadableNames, input.functionName);
    FlaggedPair(AddressIssues(ContractAddress, input.contractAddress), NameIssues(ReadableNames, input.functionName), ContractAddress, FunctionName);
    if issues == [] then
      Success(ReadValues(input.contractAddress.value, ParseReadName(input.functionName.value).value, input.args))
    else Failure(issues)
  }

  /** `writeErc20Schema.safeParse`; the same as the read schema but for the name set. */
  function ValidateWrite(input: FormInput): (r: Result<WriteValues, seq<Issue>>)
    ensures r.Success? <==> AddressOk(input.contractAddress) && input.functionName.Some? && input.functionName.value in WritableNames
    ensures r.Success? ==> (Some(r.value.contractAddress) == input.contractAddress
                            && Some(WriteNameString(r.value.functionName)) == input.functionName
                            && r.value.args == input.args)
    ensures r.Failure? ==> Flagged(r.error) == (if AddressOk(input.contractAddress) then {} else {ContractAddress})
                                               + (if input.functionName.Some? && input.functionName.value in WritableNames then {} else {FunctionName})
  {
    var issues := AddressIssues(ContractAddress, input.contractAddress) + NameIssues(WritableNames, input.functionName);
    FlaggedPair(AddressIssues(ContractAddress, input.contractAddress), NameIssues(WritableNames, input.functionName), ContractAddress, FunctionName);
    if issues == [] then
      Success(WriteValues(input.contractAddress.value, ParseWriteName(input.functionName.value).value, input.args))
    else Failure(issues)
  }

  /** `sendTransactionSchema.safeParse`. */
  function ValidateTransfer(input: TransferInput): (r: Result<TransferValues, seq<Issue>>)
    ensures r.Success? <==> AddressOk(input.address) && AmountOk(input.amount)
    ensures r.Success? ==> Some(r.value.address) == input.address && Some(r.value.amount) == input.amount
    ensures r.Failure? ==> Flagged(r.error) == (if AddressOk(input.address) then {} else {Address})
                                               + (if AmountOk(input.amount) then {} else {Amount})
  {
    var issues := AddressIssues(Address, input.address) + AmountIssues(input.amount);
    FlaggedPair(AddressIssues(Address, input.address), AmountIssues(input.amount), Address, Amount);
    if issues == [] then Success(TransferValues(input.address.value, input.amount.value))
    else Failure(issues)
  }

  /**
   * The read and write schemas treat the address and args identically: a bad
   * address makes both fail and both flag it, and with names taken from the
   * matching sets, one accepts exactly when the other does, forwarding the
   * same args. No input passes both.
   */
  lemma ReadWriteSchemasDifferOnlyInNames(input: FormInput, readName: string, writeName: string)
    requires readName in ReadableNames && writeName in WritableNames
    ensures !AddressOk(input.contractAddress) ==>
            ValidateRead(input).Failure? && ValidateWrite(input).Failure?
            && ContractAddress in Flagged(ValidateRead(input).error)
            && ContractAddress in Flagged(ValidateWrite(input).error)
    ensures ValidateRead(input.(functionName := Some(readName))).Success?
            <==> ValidateWrite(input.(functionName := Some(writeName))).Success?
    ensures ValidateRead(input.(functionName := Some(readName))).Success? ==>
            ValidateRead(input.(functionName := Some(readName))).value.args
            == ValidateWrite(input.(functionName := Some(writeName))).value.args == input.args
    ensures !(ValidateRead(input).Success? && ValidateWrite(input).Success?)
  {
    NameSetsDisjoint();
  }

  /** Only the prefix is checked, so `0xINVALID` passes both contract schemas and the transfer schema. */
  lemma MalformedAddressAccepted()
    ensures ValidateRead(FormInput(Some("0xINVALID"), Some("balanceOf"), Some("0x1111"))).Success?
    ensures ValidateWrite(FormInput(Some("0xINVALID"), Some("transfer"), None)).Success?
    ensures ValidateTransfer(TransferInput(Some("0xINVALID"), Some("0.05"))).Success?
  {
    AddressPrefixExamples();
    AmountAcceptedExamples();
  }
}
