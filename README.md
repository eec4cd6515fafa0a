# wagmi-study: form validation and call preparation, modelled in Dafny

The application is a small web page for working with an ERC20 token contract.
It can run read-only calls, submit write calls, and send native ETH. Most of its
code renders forms around wallet-library hooks. This model covers the logic the
repository writes itself:

- **Schemas** (`schema.dfy`, module `Schema`). These are the form validators. An
  address only has to start with `0x`. An ETH amount must match a decimal pattern
  with at most two fractional digits. There are two closed sets of ERC20 function
  names, one readable and one writable. Three form schemas combine these checks,
  and each returns either the parsed values or the list of issues found.
- **Read panel** (`read_contract.dfy`, module `ReadContract`). Class `ReadPanel`
  holds the three state cells: contract address, function name and the raw args
  string. Its submit handler overwrites the cells, but changes the args only when
  the submitted args string is non-empty. The panel also derives the query it sends
  on each render: an `enabled` flag, and either no argument list or the args string
  split on `,`.
- **Write panel** (`write_contract.dfy`, module `WriteContract`). This panel keeps
  no state. A valid submission becomes one write request. Its argument list is
  `args?.split(',')`, so `''` becomes `['']`, where the read path sends no args.
  The form is shown only while a wallet is connected.
- **JavaScript string operations** (`js_strings.dfy`, module `JsStrings`):
  `startsWith`, `trim`, `split(',')` and the truthiness test `!!x`. `split` is
  proved correct against `join`: k commas give k + 1 pieces, no piece contains a
  comma, joining the pieces gives back the input, and splitting a join of a non-empty
  list of comma-free pieces gives back those pieces (the empty list joins to `''`,
  which splits to `['']`).
- `wrappers.dfy` (module `Wrappers`) holds `Option`, which stands in for
  `undefined`, and `Result`.

The amount regex is written as three character-level predicates, one per
alternative. The first alternative uses an existential split point, as a
backtracking regex does. `Schema.AmountPatternIsCanonical` proves that the regex
accepts exactly the canonical amounts:

- the part before the first `.` is a decimal integer without leading zeros, where
  `0` alone is allowed;
- a `.`, if there is one, is followed by one or two digits.

Three things the code does not do, and the model does not either:

- The readable set has no `allowance`. The `useState` type of the function-name
  cell lists `allowance`, but no code path stores it.
- An address is checked for the `0x` prefix only, so `0xINVALID` passes every
  schema (`Schema.MalformedAddressAccepted`).
- No arity or type check is made on the arguments. They are split and passed on as
  strings.

## Model

| member | source | states |
|---|---|---|
| `JsStrings.StartsWith` | src/schema/index.ts:4 | `s.startsWith(prefix)` holds exactly when the prefix is no longer than `s` and agrees with it character by character |
| `JsStrings.Truthy` | src/components/readContract/read-contract.tsx:69 | `!!v` on a string or `undefined` is false exactly for `undefined` and `''` |
| `JsStrings.TrimStart` | src/components/readContract/read-contract.tsx:67 | the result is a suffix of the input, the removed prefix is all white space, and the result does not start with white space |
| `JsStrings.TrimEnd` | src/components/readContract/read-contract.tsx:67 | the result is a prefix of the input, the removed suffix is all white space, and the result does not end with white space |
| `JsStrings.Trim` | src/components/readContract/read-contract.tsx:67 | `trim()` gives a slice of the input framed by two all-white-space parts, and the slice neither starts nor ends with white space |
| `JsStrings.Split` | src/components/readContract/read-contract.tsx:67 | `split(',')` gives at least one piece, and the first piece is everything before the first comma |
| `JsStrings.TrimEmptyIffBlank` | src/components/readContract/read-contract.tsx:67 | `args.trim() === ''` holds exactly when every character is JavaScript white space |
| `JsStrings.SplitPieceCount` | src/components/readContract/read-contract.tsx:67 | `split(',')` yields one more piece than there are commas |
| `JsStrings.SplitHasNoSeparator` | src/components/readContract/read-contract.tsx:67 | no piece of `split(',')` contains a comma |
| `JsStrings.JoinSplit` | src/components/readContract/read-contract.tsx:67 | joining the pieces with `,` gives back the original string |
| `JsStrings.SplitJoin` | src/components/writeContract/write-contract.tsx:35 | splitting the join of a non-empty list of comma-free pieces gives back that list |
| `JsStrings.SplitUnique` | src/components/writeContract/write-contract.tsx:35 | the split pieces are the only non-empty list of comma-free pieces that joins back to the input, so pieces are never trimmed or dropped |
| `Schema.HasAddressPrefix` | src/schema/index.ts:13 | an address passes `startsWith("0x")` exactly when it has at least two characters, the first `0` and the second lower-case `x` |
| `Schema.AddressPrefixExamples` | src/schema/index.ts:13 | `0xINVALID` and `0x` pass; `""`, `0`, `0X1234` and `x0` fail |
| `Schema.AmountAlt1` | src/schema/index.ts:5 | a string matching `^[1-9]([0-9]+)?(?:\.[0-9]{1,2})?$` starts with a non-zero digit and ends with a digit |
| `Schema.AmountAlt2` | src/schema/index.ts:5 | `^0$` matches exactly the one-character string `0` |
| `Schema.AmountAlt3` | src/schema/index.ts:5 | a string matching `^[0-9]\.[0-9][0-9]?$` has its first `.` at position 1 and ends with a digit |
| `Schema.MatchesAmountPattern` | src/schema/index.ts:5 | a string matching the amount regex is non-empty and starts and ends with a digit |
| `Schema.AmountPatternIsCanonical` | src/schema/index.ts:5 | the three-alternative amount regex accepts exactly the canonical decimal amounts with at most two fractional digits |
| `Schema.CanonicalAmountChars` | src/schema/index.ts:5 | a canonical amount contains only digits and `.` |
| `Schema.CanonicalAmountOneDot` | src/schema/index.ts:5 | a canonical amount contains at most one `.` |
| `Schema.AcceptedAmountShape` | src/schema/index.ts:5-6 | an accepted amount starts with a digit, has only digits and at most one `.`, and has one or two digits after the `.` |
| `Schema.NonZeroLeadAccepted` | src/schema/index.ts:5 | a non-zero digit, any further digits and an optional `.` with one or two digits are accepted |
| `Schema.SingleDigitWithFractionAccepted` | src/schema/index.ts:5 | any single digit, including `0`, followed by `.` and one or two digits is accepted |
| `Schema.AmountAcceptedExamples` | src/schema/index.ts:5 | `0`, `0.05`, `12.5` and `100` are accepted |
| `Schema.RejectedWithoutDot` | src/schema/index.ts:5 | a dot-free string that is not a canonical integer is rejected |
| `Schema.AmountRejectedIntegers` | src/schema/index.ts:5 | `""`, `00`, `01`, `-1`, `+1` and `1e5` are rejected |
| `Schema.AmountRejectedFractions` | src/schema/index.ts:5 | `1.`, `.5` and `1.234` are rejected |
| `Schema.ReadNameString` | src/schema/index.ts:9 | each readable enum member's string is a non-empty member of the readable set |
| `Schema.WriteNameString` | src/schema/index.ts:10 | each writable enum member's string is a non-empty member of the writable set |
| `Schema.ParseReadName` | src/schema/index.ts:9 | parsing succeeds exactly on the five readable names and inverts `ReadNameString` |
| `Schema.ParseWriteName` | src/schema/index.ts:10 | parsing succeeds exactly on the three writable names and inverts `WriteNameString` |
| `Schema.NameRoundTrip` | src/schema/index.ts:9-10 | printing a name and parsing it back gives the same enum member |
| `Schema.NameSetsDisjoint` | src/schema/index.ts:9-10 | the readable and writable sets are disjoint, have 5 and 3 names, and `allowance` is in neither |
| `Schema.CustomMessage` | src/schema/index.ts:4-6 | a failed prefix check carries `Address must start with 0x`, a failed regex carries `Amount must be a number with up to 2 decimal places`, and no other issue carries a schema message |
| `Schema.AddressIssues` | src/schema/index.ts:4 | an address field raises no issue exactly when it is a string starting with `0x`; otherwise it raises one issue, `Required` if undefined and `InvalidStartsWith` if not, and the latter carries the message `Address must start with 0x` |
| `Schema.AmountIssues` | src/schema/index.ts:5-6 | the amount field raises no issue exactly when it is a string matching the pattern; otherwise it raises `Required` or `InvalidRegex`, and the latter carries the message `Amount must be a number with up to 2 decimal places` |
| `Schema.NameIssues` | src/schema/index.ts:14 | an enum field raises no issue exactly when it is one of the enum's names; otherwise it raises `Required` or `InvalidEnumValue` |
| `Schema.ValidateRead` | src/schema/index.ts:12-16 | the read schema succeeds exactly when the address has the prefix and the name is readable; on success it forwards the address, the name and the optional args; on failure it flags exactly the bad fields |
| `Schema.ValidateWrite` | src/schema/index.ts:18-22 | the same for the write schema with the writable names |
| `Schema.ValidateTransfer` | src/schema/index.ts:3-7 | the transfer schema succeeds exactly when the address has the prefix and the amount matches; on failure it flags exactly the bad fields |
| `Schema.ReadWriteSchemasDifferOnlyInNames` | src/schema/index.ts:12-22 | an address without the prefix fails both schemas and is flagged by both; with a name from the matching set, the read and write schemas accept the same inputs and forward the same args; no input passes both |
| `Schema.MalformedAddressAccepted` | src/schema/index.ts:13 | `0xINVALID` passes the read, write and transfer schemas |
| `ReadContract.ReadCallArgs` | src/components/readContract/read-contract.tsx:67 | the call args are undefined exactly when the args string is all white space; otherwise they are k + 1 comma-free pieces that join back to the stored string |
| `ReadContract.ReadPanel.constructor` | src/components/readContract/read-contract.tsx:14-27 | address and function name start undefined and args starts as `''`, so the query is disabled and has no args |
| `ReadContract.ReadPanel.FunctionNameValue` | src/components/readContract/read-contract.tsx:65 | the name cell as a JavaScript value is defined exactly when a name is stored, and is then a readable name that parses back to the stored member |
| `ReadContract.ReadPanel.Enabled` | src/components/readContract/read-contract.tsx:69 | `enabled` equals `!!functionName && !!contractAddress` on the cells' JavaScript values |
| `ReadContract.ReadPanel.CallArgs` | src/components/readContract/read-contract.tsx:67 | the current state's args are undefined exactly when the stored string is blank; otherwise they are k + 1 comma-free pieces that join back to it |
| `ReadContract.ReadPanel.Query` | src/components/readContract/read-contract.tsx:62-71 | the hook options carry the address and name cells; the query is enabled exactly when a name is set and the address is a non-empty string; it has args exactly when the stored string is not blank, and then k + 1 comma-free pieces that join back to it |
| `ReadContract.ReadPanel.OnSubmit` | src/components/readContract/read-contract.tsx:78-84 | address and name are overwritten; args are replaced only by a non-empty submitted string and otherwise keep their old value; the query is then enabled exactly when the address is non-empty |
| `ReadContract.ReadPanel.Submit` | src/components/readContract/read-contract.tsx:74-84 | a submission is validated by the read schema; valid input updates the cells as `onSubmit` does and enables the query; invalid input leaves all three cells unchanged |
| `ReadContract.SingleArgument` | src/components/readContract/read-contract.tsx:67 | a non-empty comma-free args string whose first character is not white space is sent as one argument |
| `ReadContract.StaleArgsScenario` | src/components/readContract/read-contract.tsx:81-83 | after `balanceOf` with args `0x1111`, submitting `totalSupply` with empty args still queries with `["0x1111"]` |
| `ReadContract.BlankArgsScenario` | src/components/readContract/read-contract.tsx:67-83 | a blank but non-empty args string replaces the stored args, and the query then has no args |
| `WriteContract.WriteCallArgs` | src/components/writeContract/write-contract.tsx:35 | undefined args stay undefined; any defined string, even `''`, becomes k + 1 comma-free pieces that join back to it |
| `WriteContract.BuildWriteRequest` | src/components/writeContract/write-contract.tsx:30-37 | the address and function name are forwarded unchanged; the args are undefined exactly when the submitted args are, and otherwise k + 1 comma-free pieces that join back to the submitted string |
| `WriteContract.SubmitWrite` | src/components/writeContract/write-contract.tsx:26-52 | a request is sent exactly when the form is shown (wallet connected) and the write schema accepts the input; it carries the input's address, name and split args |
| `WriteContract.NothingSentWhileDisconnected` | src/components/writeContract/write-contract.tsx:41-52 | without a connected wallet no write request is produced |
| `WriteContract.ReadAndWriteArgsCompared` | src/components/writeContract/write-contract.tsx:35 | for a non-blank string the read and write paths give the same args; for a blank string the read path gives none and the write path gives the string as one piece |
| `WriteContract.EmptyArgsDiffer` | src/components/writeContract/write-contract.tsx:35 | `''` gives `[""]` on the write path and no args on the read path; undefined gives no args |
| `WriteContract.TwoArguments` | src/components/writeContract/write-contract.tsx:35 | two comma-free strings joined by one comma are sent as exactly those two arguments |
| `WriteContract.TransferArgsExample` | src/components/writeContract/write-contract.tsx:35 | `0x1111,1000` gives `["0x1111", "1000"]` |
| `WriteContract.UntrimmedArgsExample` | src/components/writeContract/write-contract.tsx:35 | `0x1111, 1000` gives `["0x1111", " 1000"]`: the space is kept |

## Left out

- Transaction lifecycle (pending, confirming, confirmed). The repository does not implement it. The flags come from the wallet library's write and receipt hooks and are only displayed.
- Read-query execution, caching and stale-response handling. These happen inside the wallet library's read hook and its query cache. The model stops at the options object the panel passes in (`ReadContract.ReadPanel.Query`).
- ABI encoding and coercion of the string arguments. This is done by the wallet library against the standard ERC20 ABI; the casts in the source are type-level only. So no arity or type check is modelled, because the code makes none.
- The send-transaction handler. It converts the amount with the library's `parseEther`, whose implementation is not part of this model. Only the schema it relies on is modelled (`Schema.ValidateTransfer`).
- Wallet connection, connector readiness, disconnect and the chain configuration. These are asynchronous provider calls and configuration of a foreign library. `isConnected` enters the model as a parameter.
- Rendering and layout: the forms, result and skeleton views, the account card and the page. This includes disabling the submit button while a call is pending.
- Schema inputs are modelled as a string or `undefined`. The text inputs can produce nothing else, so zod's rejection of other value types is not modelled.
- Zod's default issue messages are not modelled: the required message and the enum message. Only the two custom messages are kept as constants.
- Strings are sequences of Unicode scalar values rather than UTF-16 code units. `split(',')` and `trim()` give the same pieces either way, because neither the comma nor any white-space character lies outside the Basic Multilingual Plane.
