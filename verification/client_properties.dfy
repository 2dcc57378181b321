/** Properties of the client's model selection, request construction and
    error messages (src/services/apiService.js:1-62). */
module ClientProperties {
  import opened Wrappers
  import opened Text
  import opened Seqs
  import opened ApiService

  /** A sequence of `setModel` calls, oldest first. */
  function SelectModels(c: Client, names: seq<string>): (r: Client)
    ensures c.Valid() ==> r.Valid()
    decreases |names|
  {
    if names == [] then c else SelectModels(SetModel(c, names[0]), names[1..])
  }

  /** The most recent supported name among the requested ones, if any. */
  function LastSupported(names: seq<string>): (r: Option<string>)
    ensures r.Some? ==> SupportedModel(r.value)
    decreases |names|
  {
    if names == [] then None
    else if SupportedModel(names[|names| - 1]) then Some(names[|names| - 1])
    else LastSupported(names[..|names| - 1])
  }

  lemma {:induction false} SelectModelsAppend(c: Client, names: seq<string>, name: string)
    ensures SelectModels(c, names + [name]) == SetModel(SelectModels(c, names), name)
    decreases |names|
  {
    if names == [] {
      assert names + [name] == [name];
    } else {
      assert (names + [name])[1..] == names[1..] + [name];
      SelectModelsAppend(SetModel(c, names[0]), names[1..], name);
    }
  }

  /** After any sequence of `setModel` calls the selected model is the last
      supported name requested, or the one selected before if none was;
      rejected names leave no trace and the endpoint never changes. */
  lemma {:induction false} SelectModelsLastWins(c: Client, names: seq<string>)
    ensures SelectModels(c, names).model == LastSupported(names).GetOr(c.model)
    ensures SelectModels(c, names).baseUrl == c.baseUrl
    decreases |names|
  {
    if names != [] {
      var init := names[..|names| - 1];
      var last := names[|names| - 1];
      assert names == init + [last];
      SelectModelsAppend(c, init, last);
      SelectModelsLastWins(c, init);
    }
  }

  /** A short history is sent whole, after the system message. */
  lemma WholeHistorySent(c: Client, systemPrompt: string, history: seq<Message>)
    requires |history| <= HistoryWindow
    ensures BuildRequest(c, systemPrompt, history).messages == [Message(SystemRole, systemPrompt)] + history
  {
    var m := BuildRequest(c, systemPrompt, history).messages;
    assert m == [m[0]] + m[1..];
  }

  /** The newest history message is always the last one sent. */
  lemma NewestMessageLast(c: Client, systemPrompt: string, history: seq<Message>)
    requires history != []
    ensures var m := BuildRequest(c, systemPrompt, history).messages;
      m[|m| - 1] == history[|history| - 1]
  {
  }

  /** The history window slides: appending a message to the history sends
      the previous window with the new message at the end, minus the
      oldest entry when the window was already full. */
  lemma HistoryWindowSlides(c: Client, systemPrompt: string, history: seq<Message>, m: Message)
    ensures var before := BuildRequest(c, systemPrompt, history).messages;
      var after := BuildRequest(c, systemPrompt, history + [m]).messages;
      after == [before[0]] + (if |history| < HistoryWindow then before[1..] else before[2..]) + [m]
  {
    var window := LastN(history, HistoryWindow);
    LastNAppend(history, m, HistoryWindow);
    var before := [Message(SystemRole, systemPrompt)] + window;
    assert before[1..] == window;
    if |history| >= HistoryWindow {
      assert before[2..] == window[1..];
    }
  }

  /** The `onError` text determines the failure: no two kinds of failure,
      and no two details or statuses, produce the same message. */
  lemma FailureMessageInjective(f1: HttpFailure, f2: HttpFailure)
    requires FailureMessage(f1) == FailureMessage(f2)
    ensures f1 == f2
  {
    var m := FailureMessage(f1);
    MessageShape(f1);
    MessageShape(f2);
    match f1
    case ApiError(d1) =>
      var d2 := f2.detail;
      assert m[|ApiErrorPrefix|..] == d1 && m[|ApiErrorPrefix|..] == d2;
    case HttpError(s1) =>
      var s2 := f2.status;
      assert m[|HttpErrorPrefix|..] == NatToString(s1) && m[|HttpErrorPrefix|..] == NatToString(s2);
      NatToStringInjective(s1, s2);
    case _ =>
  }

  /** Each kind of failure message is told apart by its first or fifth
      character. */
  lemma MessageShape(f: HttpFailure)
    ensures var m := FailureMessage(f);
      && |m| > 4
      && (m[0] == 'H' <==> f.HttpError?)
      && (m[4] == 'K' <==> f.InvalidKey?)
      && (m[4] == '调' <==> f.RateLimited?)
      && (m[4] == '错' <==> f.ApiError?)
      && (f.ApiError? ==> m == ApiErrorPrefix + f.detail)
      && (f.HttpError? ==> m == HttpErrorPrefix + NatToString(f.status))
  {
    var m := FailureMessage(f);
    match f
    case InvalidKey =>
      assert m[0] == 'A' && m[4] == 'K';
    case RateLimited =>
      assert m[0] == 'A' && m[4] == '调';
    case ApiError(d) =>
      assert m[0] == ApiErrorPrefix[0] == 'A' && m[4] == ApiErrorPrefix[4] == '错';
    case HttpError(s) =>
      assert m[0] == HttpErrorPrefix[0] == 'H' && m[4] == HttpErrorPrefix[4] == ' ';
  }
}
