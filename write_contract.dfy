/**
 * The write panel: it keeps no state of its own. Submitting valid form
 * values builds one ERC20 write request, whose argument list is
 * `values.args?.split(',')`; the form exists only while a wallet is connected.
 */
module WriteContract {
  import opened Wrappers
  import opened JsStrings
  import opened Schema
  import ReadContract

  /** `args?.split(',')`: `undefined` stays `undefined`; any string, even `''`, is split. */
  function WriteCallArgs(args: Option<string>): (r: Option<seq<string>>)
    ensures r.None? <==> args.None?
    ensures r.Some? ==> |r.value| == Count(args.value, ',') + 1
    ensures r.Some? ==> NoSeparator(r.value, ',') && Join(r.value, ',') == args.value
  {
    match args
    case None => None
    case Some(s) =>
      SplitPieceCount(s, ',');
      SplitHasNoSeparator(s, ',');
      JoinSplit(s, ',');
      Some(Split(s, ','))
  }

  /** The request handed to the wallet's `writeContract` (against the fixed ERC20 ABI). */
  datatype WriteRequest = WriteRequest(address: string, functionName: WriteName, args: Option<seq<string>>)

  /** `onSubmit`: address and name are forwarded unchanged, the args are split. */
  function BuildWriteRequest(values: WriteValues): (r: WriteRequest)
    ensures r.address == values.contractAddress && r.functionName == values.functionName
    ensures r.args.None? <==> values.args.None?
    ensures r.args.Some? ==> |r.args.value| == Count(values.args.value, ',') + 1
    ensures r.args.Some? ==> NoSeparator(r.args.value, ',') && Join(r.args.value, ',') == values.args.value
  {
    WriteRequest(values.contractAddress, values.functionName, WriteCallArgs(values.args))
  }

  /**
   * A form submission: the form is rendered only while a wallet is
   * connected (`isConnected ? <WriteForm …/> : null`), only a rendered form
   * can be submitted, and only
   * values the write schema accepts reach `onSubmit`. The result is the
   * request sent, if any.
   */
  function SubmitWrite(isConnected: bool, input: FormInput): (r: Option<WriteRequest>)
    ensures r.Some? <==> isConnected && ValidateWrite(input).Success?
    ensures r.Some? ==> Some(r.value.address) == input.contractAddress
                        && Some(WriteNameString(r.value.functionName)) == input.functionName
                        && r.value.args == WriteCallArgs(input.args)
  {
    if !isConnected then None
    else
      match ValidateWrite(input)
      case Success(values) => Some(BuildWriteRequest(values))
      case Failure(_) => None
  }

  /** Disconnected, nothing is ever sent. */
  lemma NothingSentWhileDisconnected(input: FormInput)
    ensures SubmitWrite(false, input) == None
  {
  }

  /**
   * The two paths split the same way unless the args string is blank: then
   * the read path sends no args, while the write path sends the string as a
   * single argument (`''` becomes `['']`).
   */
  lemma ReadAndWriteArgsCompared(s: string)
    ensures !IsBlank(s) ==> ReadContract.ReadCallArgs(s) == WriteCallArgs(Some(s))
    ensures IsBlank(s) ==> ReadContract.ReadCallArgs(s) == None && WriteCallArgs(Some(s)) == Some([s])
  {
    var r := WriteCallArgs(Some(s));
    if IsBlank(s) {
      assert ',' !in s;
      SplitJoin([s], ',');
    } else {
      SplitUnique(s, ReadContract.ReadCallArgs(s).value, ',');
      SplitUnique(s, r.value, ',');
    }
  }

  /** In particular the empty string: one empty argument here, no args on the read path. */
  lemma EmptyArgsDiffer()
    ensures WriteCallArgs(Some("")) == Some([""])
    ensures ReadContract.ReadCallArgs("") == None
    ensures WriteCallArgs(None) == None
  {
    ReadAndWriteArgsCompared("");
  }

  /** Two comma-free pieces joined by one comma are sent as exactly those two pieces. */
  lemma TwoArguments(a: string, b: string)
    requires ',' !in a && ',' !in b
    ensures WriteCallArgs(Some(a + "," + b)) == Some([a, b])
  {
    SplitJoin([a, b], ',');
    assert Join([a, b], ',') == a + "," + b by { JoinCons(a, [b], ','); }
  }

  /** `transfer` with `0x1111,1000` sends two pieces. */
  lemma TransferArgsExample()
    ensures WriteCallArgs(Some("0x1111,1000")) == Some(["0x1111", "1000"])
  {
    assert "0x1111" + "," + "1000" == "0x1111,1000";
    TwoArguments("0x1111", "1000");
  }

  /** The pieces are not trimmed: `0x1111, 1000` keeps the space before `1000`. */
  lemma UntrimmedArgsExample()
    ensures WriteCallArgs(Some("0x1111, 1000")) == Some(["0x1111", " 1000"])
  {
    assert "0x1111" + "," + " 1000" == "0x1111, 1000";
    TwoArguments("0x1111", " 1000");
  }
}
