/**
 * The home page: a form holding the tweet URL, the result card and the error banner. Submitting
 * the form validates the URL, shows a randomly picked mock record and posts it to the relay; the
 * relay's answer can later set the banner.
 */
module Home {
  import opened Wrappers
  import opened Records
  import UrlValidator
  import AddToSheet

  const InvalidUrlMessage: string := "Lütfen geçerli bir tweet URL'si girin."
  const SheetsErrorPrefix: string := "Google Sheets'e eklenirken hata oluştu: "
  const UnknownError: string := "Bilinmeyen hata"
  const UnreachableMessage: string := "Google Sheets'e erişilemedi."

  /** How the `fetch` to the relay settles: a reply arrives, or the request itself fails. */
  datatype FetchOutcome = Responded(reply: AddToSheet.Reply) | NetworkFailure

  /**
   * `Math.floor(Math.random() * n)` for a random number `r` in `[0, 1)`, computed on exact reals:
   * always an index of a list of `n` elements.
   */
  function PickIndex(r: real, n: nat): (i: nat)
    requires 0.0 <= r < 1.0 && 0 < n
    ensures i < n
  {
    var x := r * n as real;
    assert 0.0 <= x < n as real;
    x.Floor
  }

  /** Every entry of the mock list can be picked: the random number `i / n` picks index `i`. */
  lemma EveryIndexPickable(i: nat, n: nat)
    requires i < n
    ensures 0.0 <= i as real / n as real < 1.0
    ensures PickIndex(i as real / n as real, n) == i
  {
    var r := i as real / n as real;
    assert r * n as real == i as real;
  }

  /**
   * The banner text the relay callback sets, or `None` when it leaves the banner alone:
   * an unsuccessful reply shows its `error`, or "Bilinmeyen hata" when that is empty or
   * absent; a failed request, or a reply that is not JSON, shows that the sheet is unreachable.
   */
  function RelayError(outcome: FetchOutcome): (message: Option<string>)
    ensures message.None? <==> outcome.Responded? && outcome.reply.JsonReply? && outcome.reply.body.success
    ensures message.Some? ==> |message.value| > 0
    ensures outcome.NetworkFailure? || outcome.reply.UnhandledError? ==> message == Some(UnreachableMessage)
    ensures outcome.Responded? && outcome.reply.JsonReply? && !outcome.reply.body.success ==>
      var reason := outcome.reply.body.error;
      message.Some? && SheetsErrorPrefix <= message.value &&
      message.value[|SheetsErrorPrefix|..] == if reason.Some? && reason.value != "" then reason.value else UnknownError
  {
    match outcome
    case NetworkFailure => Some(UnreachableMessage)
    case Responded(UnhandledError) => Some(UnreachableMessage)
    case Responded(JsonReply(_, body)) =>
      if body.success then None
      else
        var reason := if body.error.Some? && body.error.value != "" then body.error.value else UnknownError;
        Some(SheetsErrorPrefix + reason)
  }

  /** The colour of the sentiment on the result card. */
  datatype Tone = Emerald | Rose | White

  /** "Olumlu" is shown in emerald, "Olumsuz" in rose, anything else in white. */
  function SentimentTone(sentiment: string): (tone: Tone)
    ensures tone == Emerald <==> sentiment == "Olumlu"
    ensures tone == Rose <==> sentiment == "Olumsuz"
    ensures tone == White <==> sentiment != "Olumlu" && sentiment != "Olumsuz"
  {
    if sentiment == "Olumlu" then Emerald
    else if sentiment == "Olumsuz" then Rose
    else White
  }

  /** The component state: the input's text, the record on the card (if any) and the banner ("" hides it). */
  class HomePage {
    var tweetUrl: string
    var result: Option<AnalysisRecord>
    var error: string

    /** The initial state: empty input, no card, no banner. */
    constructor ()
      ensures tweetUrl == "" && result == None && error == ""
    {
      tweetUrl := "";
      result := None;
      error := "";
    }

    /** The input's `onChange`: the typed text replaces the URL. */
    method EditUrl(value: string)
      modifies this`tweetUrl
      ensures tweetUrl == value
    {
      tweetUrl := value;
    }

    /**
     * `handleAnalyze`: an invalid URL sets the fixed banner and clears the card; a valid one
     * clears the banner, shows the mock record picked by `r` and empties the input. Returns the
     * record posted to the relay, if any.
     */
    method HandleAnalyze(mocks: seq<AnalysisRecord>, r: real) returns (posted: Option<AnalysisRecord>)
      requires 0 < |mocks| && 0.0 <= r < 1.0
      modifies this
      ensures !UrlValidator.Matches(old(tweetUrl)) ==>
        error == InvalidUrlMessage && result == None && tweetUrl == old(tweetUrl) && posted == None
      ensures UrlValidator.Matches(old(tweetUrl)) ==>
        error == "" && tweetUrl == "" && result == Some(mocks[PickIndex(r, |mocks|)]) && posted == result
      ensures result.Some? ==> result.value in mocks
    {
      error := "";
      var valid := UrlValidator.ValidateUrl(tweetUrl);
      if !valid {
        error := InvalidUrlMessage;
        result := None;
        return None;
      }
      var mock := mocks[PickIndex(r, |mocks|)];
      result := Some(mock);
      tweetUrl := "";
      posted := Some(mock);
    }

    /** The `then`/`catch` of the relay call: only the banner may change; the card stays as it was. */
    method SettleRelay(outcome: FetchOutcome)
      modifies this`error
      ensures error == if RelayError(outcome).Some? then RelayError(outcome).value else old(error)
    {
      var message := RelayError(outcome);
      if message.Some? {
        error := message.value;
      }
    }
  }

  /**
   * From the relay to the banner: a successful append leaves the banner alone, a failed one
   * shows its message (or "Bilinmeyen hata" when it has none), and a body the relay cannot
   * read ends in the unreachable message.
   */
  lemma RelayOutcomeShown(env: AddToSheet.Env, body: Option<AnalysisRecord>,
                          append: (AddToSheet.Credentials, AddToSheet.AppendRequest) -> AddToSheet.AppendOutcome)
    ensures var shown := RelayError(Responded(AddToSheet.Post(env, body, append)));
      && (body.None? ==> shown == Some(UnreachableMessage))
      && (body.Some? ==>
            var outcome := append(AddToSheet.JwtCredentials(env), AddToSheet.BuildAppendRequest(env.sheetId, body.value));
            && (outcome.Appended? ==> shown == None)
            && (outcome.AppendFailed? && outcome.message.Some? && outcome.message.value != "" ==>
                  shown == Some(SheetsErrorPrefix + outcome.message.value))
            && (outcome.AppendFailed? && (outcome.message.None? || outcome.message.value == "") ==>
                  shown == Some(SheetsErrorPrefix + UnknownError)))
  {
  }
}
