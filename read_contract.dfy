/**
 * The read panel: three state cells (contract address, function name and the
 * raw args string), the submit handler that overwrites them, and the query
 * the panel hands to the read hook, derived from the cells on every render.
 */
module ReadContract {
  import opened Wrappers
  import opened JsStrings
  import opened Schema

  /**
   * The call's argument list for a stored args string: `undefined` when
   * `args.trim() === ''`, else `args.split(',')` with the pieces untrimmed.
   */
  function ReadCallArgs(args: string): (r: Option<seq<string>>)
    ensures r.None? <==> IsBlank(args)
    ensures r.Some? ==> |r.value| == Count(args, ',') + 1
    ensures r.Some? ==> NoSeparator(r.value, ',') && Join(r.value, ',') == args
  {
    TrimEmptyIffBlank(args);
    if Trim(args) == "" then None
    else
      SplitPieceCount(args, ',');
      SplitHasNoSeparator(args, ',');
      JoinSplit(args, ',');
      Some(Split(args, ','))
  }

  /** The options object given to the read hook (the ABI is the fixed ERC20 one). */
  datatype ReadQuery = ReadQuery(
    address: Option<string>,
    functionName: Option<ReadName>,
    args: Option<seq<string>>,
    enabled: bool)

  class ReadPanel {
    var contractAddress: Option<string>
    var functionName: Option<ReadName>
    var args: string

    /** The three cells start as `undefined`, `undefined` and `''`. */
    constructor ()
      ensures contractAddress == None && functionName == None && args == ""
      ensures !Enabled() && CallArgs() == None
    {
      contractAddress := None;
      functionName := None;
      args := "";
      TrimEmptyIffBlank("");
    }

    /** The stored function name as the JavaScript value it is: the enum string, or `undefined`. */
    function FunctionNameValue(): (v: Option<string>)
      reads this
      ensures v.Some? <==> functionName.Some?
      ensures v.Some? ==> v.value in ReadableNames && ParseReadName(v.value) == functionName
    {
      if functionName.Some? then Some(ReadNameString(functionName.value)) else None
    }

    /**
     * `!!functionName && !!contractAddress`. The enum strings are never empty,
     * so a stored name is always truthy.
     */
    predicate Enabled()
      reads this
      ensures Enabled() <==> Truthy(FunctionNameValue()) && Truthy(contractAddress)
    {
      functionName.Some? && Truthy(contractAddress)
    }

    /** The argument list the next query is sent with. */
    function CallArgs(): (r: Option<seq<string>>)
      reads this
      ensures r.None? <==> IsBlank(args)
      ensures r.Some? ==> |r.value| == Count(args, ',') + 1
      ensures r.Some? ==> NoSeparator(r.value, ',') && Join(r.value, ',') == args
    {
      ReadCallArgs(args)
    }

    /**
     * The query for the current state: it is enabled exactly when a name is
     * set and the address is a non-empty string; it carries no args when the
     * stored string is blank, and otherwise its comma-free pieces.
     */
    function Query(): (q: ReadQuery)
      reads this
      ensures q.address == contractAddress && q.functionName == functionName
      ensures q.enabled <==> q.functionName.Some? && Truthy(q.address)
      ensures q.args.None? <==> IsBlank(args)
      ensures q.args.Some? ==> |q.args.value| == Count(args, ',') + 1
      ensures q.args.Some? ==> NoSeparator(q.args.value, ',') && Join(q.args.value, ',') == args
    {
      ReadQuery(contractAddress, functionName, CallArgs(), Enabled())
    }

    /**
     * `onSubmit`: address and function name are always overwritten; args only
     * when the submitted value is a non-empty string, so earlier args persist.
     */
    method OnSubmit(values: ReadValues)
      modifies this
      ensures contractAddress == Some(values.contractAddress)
      ensures functionName == Some(values.functionName)
      ensures args == if Truthy(values.args) then values.args.value else old(args)
      ensures Enabled() <==> values.contractAddress != ""
    {
      contractAddress := Some(values.contractAddress);
      functionName := Some(values.functionName);
      if Truthy(values.args) {
        args := values.args.value;
      }
    }

    /**
     * Submitting the form: the schema validates the fields, and only valid
     * values reach `onSubmit`; after a valid submission the query is enabled.
     */
    method Submit(input: FormInput) returns (r: Result<ReadValues, seq<Issue>>)
      modifies this
      ensures r == ValidateRead(input)
      ensures r.Success? ==> contractAddress == input.contractAddress && functionName == Some(r.value.functionName)
      ensures r.Success? ==> args == if Truthy(input.args) then input.args.value else old(args)
      ensures r.Success? ==> Enabled()
      ensures r.Failure? ==> contractAddress == old(contractAddress) && functionName == old(functionName) && args == old(args)
    {
      r := ValidateRead(input);
      if r.Success? {
        OnSubmit(r.value);
      }
    }
  }

  /** A non-empty, comma-free args string whose first character is not white space is sent as that single piece. */
  lemma SingleArgument(a: string)
    requires a != "" && !IsJsWhitespace(a[0]) && ',' !in a
    ensures ReadCallArgs(a) == Some([a])
  {
    SplitJoin([a], ',');
  }

  /**
   * Args persist: after `balanceOf` with args `0x1111`, a submission of
   * `totalSupply` with the args left empty still queries with `["0x1111"]`.
   */
  method StaleArgsScenario() returns (first: ReadQuery, second: ReadQuery)
    ensures first == ReadQuery(Some("0xA0b8"), Some(BalanceOf), Some(["0x1111"]), true)
    ensures second == ReadQuery(Some("0xA0b8"), Some(TotalSupply), Some(["0x1111"]), true)
  {
    var panel := new ReadPanel();
    panel.OnSubmit(ReadValues("0xA0b8", BalanceOf, Some("0x1111")));
    SingleArgument("0x1111");
    first := panel.Query();
    panel.OnSubmit(ReadValues("0xA0b8", TotalSupply, Some("")));
    second := panel.Query();
  }

  /**
   * A white-space-only args string is truthy, so it replaces the stored args,
   * but it trims to empty, so the next query has no args at all.
   */
  method BlankArgsScenario() returns (q: ReadQuery)
    ensures q == ReadQuery(Some("0xA0b8"), Some(Name), None, true)
  {
    var panel := new ReadPanel();
    panel.OnSubmit(ReadValues("0xA0b8", BalanceOf, Some("0x1111")));
    panel.OnSubmit(ReadValues("0xA0b8", Name, Some("  ")));
    q := panel.Query();
  }
}
