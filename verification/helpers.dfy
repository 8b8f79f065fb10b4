/**
 * The pure helpers of frontend/utils/helpers.ts: address truncation and
 * validation, the network an address belongs to, the relative-time buckets and
 * the contract error messages.
 */
module Helpers {
  import opened JsString

  // ------------------------------------------------------------ truncation

  /** The default lengths of `truncateAddress`. */
  const DefaultPrefixLength := 4
  const DefaultSuffixLength := 4

  /** `truncateAddress(address, prefixLength, suffixLength)`: `slice(0, prefixLength)`, "...", `slice(-suffixLength)`. */
  function TruncateAddress(address: string, prefixLength: int, suffixLength: int): string {
    if |address| == 0 then ""
    else if |address| <= prefixLength + suffixLength then address
    else Slice(address, 0, prefixLength) + "..." + Slice(address, -suffixLength, |address|)
  }

  /**
   * An empty address gives "", a short one comes back unchanged, and a longer
   * one keeps its first `prefixLength` and last `suffixLength` characters around "...".
   */
  lemma TruncateAddressShape(address: string, prefixLength: int, suffixLength: int)
    ensures |address| == 0 ==> TruncateAddress(address, prefixLength, suffixLength) == ""
    ensures |address| <= prefixLength + suffixLength ==> TruncateAddress(address, prefixLength, suffixLength) == address
    ensures 0 <= prefixLength && 1 <= suffixLength && prefixLength + suffixLength < |address| ==>
              && TruncateAddress(address, prefixLength, suffixLength)
                 == address[..prefixLength] + "..." + address[|address| - suffixLength..]
              && |TruncateAddress(address, prefixLength, suffixLength)| == prefixLength + suffixLength + 3
  {
  }

  /**
   * With the default lengths, an address longer than eight characters shows its
   * first four and last four characters around "...", eleven characters in all;
   * a Stacks address of 41 characters keeps `a[..4]` and `a[37..]`.
   */
  lemma DefaultTruncation(address: string)
    requires DefaultPrefixLength + DefaultSuffixLength < |address|
    ensures TruncateAddress(address, DefaultPrefixLength, DefaultSuffixLength)
            == address[..4] + "..." + address[|address| - 4..]
    ensures |TruncateAddress(address, DefaultPrefixLength, DefaultSuffixLength)| == 11
  {
    TruncateAddressShape(address, DefaultPrefixLength, DefaultSuffixLength);
  }

  /** With a suffix length of 0, `slice(-0)` is `slice(0)`: the whole address follows the "...". */
  lemma ZeroSuffixKeepsAddress(address: string, prefixLength: int)
    requires 0 <= prefixLength < |address|
    ensures TruncateAddress(address, prefixLength, 0) == address[..prefixLength] + "..." + address
    ensures |TruncateAddress(address, prefixLength, 0)| > |address|
  {
  }

  // ---------------------------------------------------------------- addresses

  /** `[0-9A-Z]` */
  predicate IsAddressChar(c: char) {
    '0' <= c <= '9' || 'A' <= c <= 'Z'
  }

  /** How many characters of `[0-9A-Z]` start `s`. */
  function AddressCharRun(s: string): (k: nat)
    ensures k <= |s|
    ensures forall i :: 0 <= i < k ==> IsAddressChar(s[i])
    ensures k < |s| ==> !IsAddressChar(s[k])
  {
    if |s| == 0 || !IsAddressChar(s[0]) then 0
    else
      var k := AddressCharRun(s[1..]);
      assert forall i :: 1 <= i < |s| ==> s[i] == s[1..][i - 1];
      1 + k
  }

  /**
   * `/^(SP|ST)[0-9A-Z]{38,40}$/.test(address)`: the prefix, then a run of 38 to
   * 40 address characters that reaches the end.
   */
  function IsValidStacksAddress(address: string): (ok: bool)
    ensures ok <==> && (StartsWith(address, "SP") || StartsWith(address, "ST"))
                    && 40 <= |address| <= 42
                    && forall i :: 2 <= i < |address| ==> IsAddressChar(address[i])
  {
    if |address| < 2 || address[0] != 'S' || (address[1] != 'P' && address[1] != 'T') then false
    else
      var run := AddressCharRun(address[2..]);
      assert forall i :: 2 <= i < |address| ==> address[i] == address[2..][i - 2];
      assert StartsWith(address, "SP") <==> address[1] == 'P';
      assert StartsWith(address, "ST") <==> address[1] == 'T';
      run == |address| - 2 && 38 <= run <= 40
  }

  datatype Network = Mainnet | Testnet

  /** `getNetworkFromAddress(address)` */
  function NetworkFromAddress(address: string): Network {
    if StartsWith(address, "SP") then Mainnet else Testnet
  }

  /** A valid address belongs to main net exactly when its second letter is 'P', to test net when it is 'T'. */
  lemma ValidAddressNetwork(address: string)
    requires IsValidStacksAddress(address)
    ensures NetworkFromAddress(address) == Mainnet <==> address[1] == 'P'
    ensures NetworkFromAddress(address) == Testnet <==> address[1] == 'T'
  {
    assert StartsWith(address, "SP") <==> address[..2] == "SP";
  }

  /** Valid or not, a string is taken for main net exactly when it starts with "SP", and for test net otherwise. */
  lemma OtherPrefixIsTestnet(address: string)
    ensures NetworkFromAddress(address) == Mainnet <==> 2 <= |address| && address[0] == 'S' && address[1] == 'P'
    ensures NetworkFromAddress(address) == Testnet <==> |address| < 2 || address[0] != 'S' || address[1] != 'P'
  {
    if 2 <= |address| {
      assert address[..2][0] == address[0] && address[..2][1] == address[1];
      assert address[0] == 'S' && address[1] == 'P' ==> address[..2] == "SP";
    }
  }

  // ------------------------------------------------------------ relative time

  datatype TimeUnit = Minute | Hour | Day | Month

  /** "just now", or a count of whole units. */
  datatype RelativeTime = JustNow | Ago(count: nat, unit: TimeUnit)

  /** Seconds in one unit; a month is 30 days. */
  function UnitSeconds(u: TimeUnit): nat {
    match u
    case Minute => 60
    case Hour => 3600
    case Day => 86400
    case Month => 2592000
  }

  /** `Math.floor((now - date) / 1000)`, both in milliseconds. */
  function ElapsedSeconds(date: int, now: int): int {
    (now - date) / 1000
  }

  /** `formatRelativeTime(date)` with the clock reading `now`, as the bucket it picks. */
  function FormatRelativeTime(date: int, now: int): RelativeTime {
    var seconds := ElapsedSeconds(date, now);
    if seconds < 60 then JustNow
    else
      var minutes := seconds / 60;
      if minutes < 60 then Ago(minutes, Minute)
      else
        var hours := minutes / 60;
        if hours < 24 then Ago(hours, Hour)
        else
          var days := hours / 24;
          if days < 30 then Ago(days, Day)
          else Ago(days / 30, Month)
  }

  /**
   * Under a minute (and any time in the future) is "just now"; otherwise the
   * count is the elapsed time in whole units of the largest unit that fits, and
   * every unit but months stays below the next one.
   */
  lemma RelativeTimeBuckets(date: int, now: int)
    ensures var r, seconds := FormatRelativeTime(date, now), ElapsedSeconds(date, now);
            && (r.JustNow? <==> seconds < 60)
            && (r.Ago? ==> 1 <= r.count && r.count == seconds / UnitSeconds(r.unit))
            && (r.Ago? && r.unit == Minute ==> seconds < 3600)
            && (r.Ago? && r.unit == Hour ==> 3600 <= seconds < 86400)
            && (r.Ago? && r.unit == Day ==> 86400 <= seconds < 2592000)
            && (r.Ago? && r.unit == Month ==> 2592000 <= seconds)
  {
    var seconds := ElapsedSeconds(date, now);
    if 60 <= seconds {
      var minutes := seconds / 60;
      var hours := minutes / 60;
      var days := hours / 24;
      assert hours == seconds / 3600;
      assert days == seconds / 86400;
      assert days / 30 == seconds / 2592000;
    }
  }

  /** Buckets by age: "just now" first, then minutes, hours, days and months. */
  function Age(r: RelativeTime): nat {
    match r
    case JustNow => 0
    case Ago(_, Minute) => 1
    case Ago(_, Hour) => 2
    case Ago(_, Day) => 3
    case Ago(_, Month) => 4
  }

  /** An older date never reads as more recent: a later bucket, or the same unit with no smaller count. */
  lemma OlderReadsOlder(older: int, newer: int, now: int)
    requires older <= newer
    ensures var a, b := FormatRelativeTime(older, now), FormatRelativeTime(newer, now);
            Age(b) < Age(a) || (Age(b) == Age(a) && (a.Ago? ==> b.count <= a.count))
  {
    RelativeTimeBuckets(older, now);
    RelativeTimeBuckets(newer, now);
  }

  function UnitName(u: TimeUnit): string {
    match u
    case Minute => "minute"
    case Hour => "hour"
    case Day => "day"
    case Month => "month"
  }

  /** The text: "just now", or "`n` `unit`s ago" with the "s" left off for a count of 1. */
  function Render(r: RelativeTime): string {
    match r
    case JustNow => "just now"
    case Ago(n, u) => NatToString(n) + UnitText(n, u)
  }

  /** What follows the count: " `unit`s ago", without the "s" for a count of 1. */
  function UnitText(n: nat, u: TimeUnit): string {
    " " + UnitName(u) + (if n == 1 then "" else "s") + " ago"
  }

  /** The number at the start of the text is the count. */
  lemma RenderReadsBack(n: nat, u: TimeUnit)
    ensures ParseInt(Render(Ago(n, u)), Radix10) == Num(n)
  {
    assert Render(Ago(n, u)) == IntToString(n) + UnitText(n, u);
    IntToStringRoundTrip(n, UnitText(n, u));
  }

  /** The unit is singular exactly for a count of 1. */
  lemma SingularIffOne(n: nat, u: TimeUnit)
    ensures Render(Ago(n, u)) == NatToString(n) + " " + UnitName(u) + " ago" <==> n == 1
  {
    if n != 1 {
      assert |UnitText(n, u)| == |" " + UnitName(u) + " ago"| + 1;
    }
  }

  // ------------------------------------------------------------ error codes

  /** `CONTRACT_ERROR_MESSAGES` (frontend/utils/constants.ts). */
  const ContractErrorMessages: map<int, string> := map[
    100 := "Unauthorized: Only the contract owner can perform this action",
    101 := "Counter underflow: Cannot decrement below zero",
    102 := "Insufficient balance: Not enough STX to complete transaction",
    103 := "Transfer failed: STX transfer unsuccessful",
    104 := "Invalid amount: Amount must be greater than zero"]

  const UnknownPrefix := "Unknown error (code: "

  /** `getContractErrorMessage(errorCode)`: the table's message, falling back when it is missing (or empty). */
  function ContractErrorMessage(code: int): string {
    var known := if code in ContractErrorMessages then ContractErrorMessages[code] else "";
    if known != "" then known else UnknownPrefix + IntToString(code) + ")"
  }

  /** Codes 100 to 104 get their table message. */
  lemma KnownErrorMessage(code: int)
    requires 100 <= code <= 104
    ensures ContractErrorMessage(code) == ContractErrorMessages[code]
  {
  }

  /** Any other code gets the fallback, from which the code reads back. */
  lemma UnknownErrorMessage(code: int)
    requires !(100 <= code <= 104)
    ensures StartsWith(ContractErrorMessage(code), UnknownPrefix)
    ensures ParseInt(ContractErrorMessage(code)[|UnknownPrefix|..], Radix10) == Num(code)
  {
    var m := ContractErrorMessage(code);
    assert code !in ContractErrorMessages;
    assert m == UnknownPrefix + (IntToString(code) + ")");
    assert m[|UnknownPrefix|..] == IntToString(code) + ")";
    IntToStringRoundTrip(code, ")");
  }
}
