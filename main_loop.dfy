/**
 * The polling loop of `main` in homework.py. One iteration fetches the
 * statuses from the poll cursor on, validates the reply, formats and sends a
 * status message for the first homework, and stores the server's
 * `current_date` as the new cursor; any exception on the way is caught,
 * reported in a failure message, and leaves the cursor as it was.
 *
 * The outside world of an iteration (the clock, the HTTP reply, whether the
 * chat accepted the message) is given as an `Iteration`; the loop runs over
 * a finite sequence of them.
 */
module MainLoop {
  import opened Python
  import opened Homework

  /** The three values read from the environment. */
  datatype Config = Config(practicumToken: Option<string>, telegramToken: Option<string>,
                           telegramChatId: Option<string>)

  /** What one iteration gets from outside: the wall-clock time, the reply to
    * its GET request, and whether the chat accepted the message sent in it
    * (a rejected send is logged and swallowed). */
  datatype Iteration = Iteration(now: int, reply: HttpReply, delivered: bool)

  /** The head of every failure message. */
  const FailurePrefix := "Сбой в работе программы: "

  /** The message the handler sends for an exception. */
  function FailureMessage(e: Exception): (m: string) {
    FailurePrefix + ExceptionText(e)
  }

  /** A failure message splits back into the fixed prefix and the text of the
    * exception, so the chat sees exactly what `str` gives for the error. */
  lemma FailureMessageSplits(e: Exception)
    ensures |FailureMessage(e)| >= |FailurePrefix|
    ensures FailureMessage(e)[..|FailurePrefix|] == FailurePrefix
    ensures FailureMessage(e)[|FailurePrefix|..] == ExceptionText(e)
  {
  }

  /** What the `try` block of one iteration leaves behind when nothing raises:
    * the `current_date` it stores and the status message it sent, if any. */
  datatype Progress = Progress(currentDate: Option<int>, statusMessage: Option<string>)

  /** The `try` block of one iteration, up to the exception it raises. */
  function TryBlock(reply: HttpReply): (r: Outcome<Progress>)
    ensures r.Ok? ==> reply.Reply? && reply.statusCode == 200 && reply.body.Decoded?
                      && r.value.currentDate == reply.body.response.currentDate
  {
    match GetApiAnswer(reply)
    case Raise(e) => Raise(e)
    case Ok(response) =>
      match CheckResponse(response)
      case Raise(e) => Raise(e)
      case Ok(None) => Ok(Progress(response.currentDate, None))
      case Ok(Some(entries)) =>
        match ParseStatus(entries[0].value)
        case Raise(e) => Raise(e)
        case Ok(message) => Ok(Progress(response.currentDate, Some(message)))
  }

  /** The first homework of a response, when `check_response` lets it through. */
  function FirstHomework(response: Response): (h: Option<Homework>) {
    match response.homeworks
    case List(entries) => if |entries| > 0 then entries[0] else None
    case _ => None
  }

  /** An iteration runs its `try` block to the end exactly when the reply is a
    * decodable 200, it has a `homeworks` key, and the first homework, if the
    * list yields one, has a known status. */
  lemma TryBlockSucceedsIff(reply: HttpReply)
    ensures TryBlock(reply).Ok? <==>
      reply.Reply? && reply.statusCode == 200 && reply.body.Decoded?
      && !reply.body.response.homeworks.Absent?
      && (FirstHomework(reply.body.response).Some? ==>
            FirstHomework(reply.body.response).value.status in
              {Some("approved"), Some("reviewing"), Some("rejected")})
  {
  }

  /** The outcome of one iteration. */
  datatype StepResult = StepResult(request: Request, cursor: Option<int>,
                                   attempted: seq<string>, delivered: seq<string>)

  /** One iteration of the loop from poll cursor `cursor`: the request it
    * issues, the cursor it leaves, the messages it hands to the chat and those
    * the chat accepted. */
  function Step(config: Config, cursor: Option<int>, it: Iteration): (s: StepResult)
    ensures s.request == ApiRequest(cursor, it.now, config.practicumToken)
    ensures |s.attempted| <= 1
    ensures s.delivered == (if it.delivered then s.attempted else [])
    ensures TryBlock(it.reply).Raise? ==> s.cursor == cursor
    ensures TryBlock(it.reply).Ok? ==> s.cursor == TryBlock(it.reply).value.currentDate
  {
    var request := ApiRequest(cursor, it.now, config.practicumToken);
    var (cursor', sent) :=
      match TryBlock(it.reply)
      case Raise(e) => (cursor, [FailureMessage(e)])
      case Ok(progress) =>
        (progress.currentDate,
         if progress.statusMessage.Some? then [progress.statusMessage.value] else []);
    StepResult(request, cursor', sent, if it.delivered then sent else [])
  }

  /** A non-200 reply: the cursor stays, and the one message sent is the
    * failure message for the bare `HTTPError`, which prints as nothing. */
  lemma StepOnErrorStatus(config: Config, cursor: Option<int>, it: Iteration)
    requires it.reply.Reply? && it.reply.statusCode != 200
    ensures Step(config, cursor, it).cursor == cursor
    ensures Step(config, cursor, it).attempted == ["Сбой в работе программы: "]
  {
    assert FailureMessage(HTTPError) == FailurePrefix + "";
    assert FailurePrefix + "" == FailurePrefix;
  }

  /** Any exception from the fetch, the validation or the formatting: the
    * cursor keeps its value and exactly one failure message is sent. */
  lemma StepOnException(config: Config, cursor: Option<int>, it: Iteration, e: Exception)
    requires TryBlock(it.reply) == Raise(e)
    ensures Step(config, cursor, it).cursor == cursor
    ensures Step(config, cursor, it).attempted == ["Сбой в работе программы: " + ExceptionText(e)]
  {
  }

  /** A network error, or a status-200 body that does not decode: the cursor
    * stays and the failure message carries the error's own text. */
  lemma StepOnFetchFailure(config: Config, cursor: Option<int>, it: Iteration)
    requires it.reply.TransportFailure? || (it.reply.statusCode == 200 && it.reply.body.Undecodable?)
    ensures Step(config, cursor, it).cursor == cursor
    ensures Step(config, cursor, it).attempted ==
      [FailurePrefix + (if it.reply.TransportFailure? then it.reply.text else it.reply.body.text)]
  {
  }

  /** The text of the KeyError for the missing `homeworks` key. The key is a
    * parameter so that the verifier does not evaluate `repr` on the literal. */
  lemma MissingKeyText(key: string)
    requires key == "homeworks"
    ensures ExceptionText(KeyError(Some(key))) == "'homeworks'"
  {
    forall i | 0 <= i < |key| ensures Verbatim(key[i], '\'') {
      assert 'a' <= key[i] <= 'z';
    }
    ReprVerbatim(key);
    assert "'" + key + "'" == "'homeworks'";
  }

  /** A decoded 200 reply without a `homeworks` key: the cursor stays and
    * the failure message names the missing key. */
  lemma StepOnMissingKey(config: Config, cursor: Option<int>, it: Iteration, response: Response)
    requires it.reply == Reply(200, Decoded(response)) && response.homeworks.Absent?
    ensures Step(config, cursor, it).cursor == cursor
    ensures Step(config, cursor, it).attempted == [FailurePrefix + "'homeworks'"]
  {
    MissingKeyText("homeworks");
    assert TryBlock(it.reply) == Raise(KeyError(Some("homeworks")));
  }

  /** A decoded 200 reply whose list is null, empty or starts with null: no
    * message, and the cursor still moves to the reported date. */
  lemma StepOnNoHomework(config: Config, cursor: Option<int>, it: Iteration, response: Response)
    requires it.reply == Reply(200, Decoded(response))
    requires !response.homeworks.Absent? && FirstHomework(response).None?
    ensures Step(config, cursor, it).cursor == response.currentDate
    ensures Step(config, cursor, it).attempted == []
  {
  }

  /** A decoded 200 reply whose first homework has a known status: exactly one
    * message, for that homework only, and the cursor moves to the reported
    * date. */
  lemma StepOnKnownStatus(config: Config, cursor: Option<int>, it: Iteration, response: Response,
                          homework: Homework)
    requires it.reply == Reply(200, Decoded(response))
    requires FirstHomework(response) == Some(homework) && ParseStatus(homework).Ok?
    ensures Step(config, cursor, it).cursor == response.currentDate
    ensures Step(config, cursor, it).attempted == [ParseStatus(homework).value]
  {
  }

  /** A decoded 200 reply whose first homework has an unknown or missing
    * status: the cursor stays and the failure message carries the KeyError. */
  lemma StepOnUnknownStatus(config: Config, cursor: Option<int>, it: Iteration, response: Response,
                            homework: Homework)
    requires it.reply == Reply(200, Decoded(response))
    requires FirstHomework(response) == Some(homework) && ParseStatus(homework).Raise?
    ensures Step(config, cursor, it).cursor == cursor
    ensures Step(config, cursor, it).attempted == [FailurePrefix + ExceptionText(KeyError(homework.status))]
  {
  }

  /** A failed send changes nothing but what the chat received. */
  lemma StepIgnoresDelivery(config: Config, cursor: Option<int>, it1: Iteration, it2: Iteration)
    requires it1.now == it2.now && it1.reply == it2.reply
    ensures Step(config, cursor, it1).request == Step(config, cursor, it2).request
    ensures Step(config, cursor, it1).cursor == Step(config, cursor, it2).cursor
    ensures Step(config, cursor, it1).attempted == Step(config, cursor, it2).attempted
  {
  }

  /** A status message and a failure message can always be told apart. */
  lemma StatusAndFailureMessagesDiffer(homework: Homework, e: Exception)
    requires ParseStatus(homework).Ok?
    ensures ParseStatus(homework).value != FailureMessage(e)
  {
    assert ParseStatus(homework).value[0] == StatusChangedPrefix[0];
    assert FailureMessage(e)[0] == FailurePrefix[0];
  }

  /** Failure messages for unknown statuses name the status: different
    * statuses, None included, give different messages. */
  lemma UnknownStatusMessagesDiffer(s1: Option<string>, s2: Option<string>)
    requires s1 != s2
    ensures FailureMessage(KeyError(s1)) != FailureMessage(KeyError(s2))
  {
    KeyErrorTextInjective(s1, s2);
    FailureMessageSplits(KeyError(s1));
    FailureMessageSplits(KeyError(s2));
  }

  /** The cursor is replaced by whatever the server reports, so it can move
    * backwards, or become None, which sends the next fetch back to "now". */
  lemma CursorCanMoveBackwards(config: Config)
    ensures var it := Iteration(2000, Reply(200, Decoded(Response(List([]), Some(500)))), true);
      Step(config, Some(1000), it).cursor == Some(500)
    ensures var it := Iteration(2000, Reply(200, Decoded(Response(List([]), None))), true);
      var s := Step(config, Some(1000), it);
      s.cursor == None && Step(config, s.cursor, it).request.fromDate == 2000
  {
  }

  /** A response with one approved homework at cursor 500. */
  lemma ApprovedScenario(config: Config, now: int)
    ensures var it := Iteration(now, Reply(200, Decoded(Response(
                        List([Some(Homework(Some("proj1"), Some("approved")))]), Some(1000)))), true);
      var s := Step(config, Some(500), it);
      && s.request.fromDate == 500
      && s.cursor == Some(1000)
      && s.attempted == ["Изменился статус проверки работы \"" + "proj1" + "\". " + "Работа проверена: ревьюеру всё понравилось. Ура!"]
  {
  }

  /** A response with an empty homework list: nothing is sent, and the cursor
    * still moves to the reported date. */
  lemma EmptyListScenario(config: Config, now: int)
    ensures var it := Iteration(now, Reply(200, Decoded(Response(List([]), Some(1000)))), true);
      var s := Step(config, Some(500), it);
      s.cursor == Some(1000) && s.attempted == []
  {
  }

  // ---------------------------------------------------------------------------
  // Many iterations
  // ---------------------------------------------------------------------------

  /** What the loop has done after some iterations. */
  datatype History = History(cursor: Option<int>, requests: seq<Request>,
                             attempted: seq<string>, delivered: seq<string>)

  /** The loop started at wall-clock time `start` and run for `its`. */
  function Replay(config: Config, start: int, its: seq<Iteration>): (h: History)
    ensures |h.requests| == |its|
    ensures |h.attempted| <= |its|
    ensures |h.delivered| <= |h.attempted|
    decreases |its|
  {
    if its == [] then History(Some(start), [], [], [])
    else
      var before := Replay(config, start, its[..|its| - 1]);
      var s := Step(config, before.cursor, its[|its| - 1]);
      History(s.cursor, before.requests + [s.request],
              before.attempted + s.attempted, before.delivered + s.delivered)
  }

  /** Iteration `k` is the last of `its` whose `try` block ran to the end. */
  ghost predicate LastSuccess(its: seq<Iteration>, k: int) {
    && 0 <= k < |its|
    && TryBlock(its[k].reply).Ok?
    && forall j :: k < j < |its| ==> TryBlock(its[j].reply).Raise?
  }

  /** The cursor after some iterations is the `current_date` reported by the
    * last iteration whose `try` block ran to the end. */
  lemma {:induction false} ReplayCursorIsLastReport(config: Config, start: int, its: seq<Iteration>, k: int)
    requires LastSuccess(its, k)
    ensures Replay(config, start, its).cursor == TryBlock(its[k].reply).value.currentDate
    decreases |its|
  {
    var n := |its| - 1;
    if k < n {
      var init := its[..n];
      assert init[k] == its[k];
      assert forall j :: k < j < n ==> init[j] == its[j];
      ReplayCursorIsLastReport(config, start, init, k);
      assert TryBlock(its[n].reply).Raise?;
    }
  }

  /** While no iteration's `try` block has run to the end, the cursor is
    * still the start time. */
  lemma {:induction false} ReplayCursorUntilFirstReport(config: Config, start: int, its: seq<Iteration>)
    requires forall k :: 0 <= k < |its| ==> TryBlock(its[k].reply).Raise?
    ensures Replay(config, start, its).cursor == Some(start)
    decreases |its|
  {
    if its != [] {
      var n := |its| - 1;
      var init := its[..n];
      assert forall k :: 0 <= k < n ==> init[k] == its[k];
      ReplayCursorUntilFirstReport(config, start, init);
      assert TryBlock(its[n].reply).Raise?;
    }
  }

  /** Iteration k of a run issues its request from the cursor the iterations
    * before it left, and appends exactly the messages that one step attempts
    * and delivers: a run sends, in order, what its iterations send. */
  lemma ReplayNext(config: Config, start: int, its: seq<Iteration>, k: nat)
    requires k < |its|
    ensures var before := Replay(config, start, its[..k]);
      var s := Step(config, before.cursor, its[k]);
      var after := Replay(config, start, its[..k + 1]);
      && after.cursor == s.cursor
      && after.requests == before.requests + [s.request]
      && after.attempted == before.attempted + s.attempted
      && after.delivered == before.delivered + s.delivered
  {
    assert its[..k + 1][..k] == its[..k];
  }

  /** Running the loop longer only appends requests: the first k iterations'
    * requests stay as they were. */
  lemma {:induction false} ReplayExtends(config: Config, start: int, its: seq<Iteration>, k: nat)
    requires k <= |its|
    ensures Replay(config, start, its[..k]).requests == Replay(config, start, its).requests[..k]
    decreases |its|
  {
    if k < |its| {
      var n := |its| - 1;
      var init := its[..n];
      var before := Replay(config, start, init);
      var after := Replay(config, start, its);
      assert after.requests == before.requests + [Step(config, before.cursor, its[n]).request];
      assert after.requests[..n] == before.requests;
      ReplayExtends(config, start, init, k);
      assert init[..k] == its[..k];
    } else {
      assert its[..k] == its;
    }
  }

  /** Running the loop longer only appends messages: those the first k
    * iterations attempted and delivered begin what the longer run attempted
    * and delivered. */
  lemma {:induction false} ReplayMessagesExtend(config: Config, start: int, its: seq<Iteration>, k: nat)
    requires k <= |its|
    ensures Replay(config, start, its[..k]).attempted <= Replay(config, start, its).attempted
    ensures Replay(config, start, its[..k]).delivered <= Replay(config, start, its).delivered
    decreases |its|
  {
    if k == |its| {
      assert its[..k] == its;
    } else {
      var n := |its| - 1;
      ReplayMessagesExtend(config, start, its[..n], k);
      assert its[..n][..k] == its[..k];
      ReplayNext(config, start, its, n);
      assert its[..n + 1] == its;
      var short, before := Replay(config, start, its[..k]), Replay(config, start, its[..n]);
      var step := Step(config, before.cursor, its[n]);
      PrefixOfExtension(short.attempted, before.attempted, step.attempted);
      PrefixOfExtension(short.delivered, before.delivered, step.delivered);
    }
  }

  /** A prefix of a sequence is a prefix of any extension of it. */
  lemma PrefixOfExtension(a: seq<string>, b: seq<string>, c: seq<string>)
    requires a <= b
    ensures a <= b + c
  {
    assert (b + c)[..|a|] == b[..|a|];
  }

  /** The k-th request asks from the cursor the first k iterations left. */
  lemma ReplayRequest(config: Config, start: int, its: seq<Iteration>, k: nat)
    requires k < |its|
    ensures Replay(config, start, its).requests[k] ==
      ApiRequest(Replay(config, start, its[..k]).cursor, its[k].now, config.practicumToken)
  {
    ReplayExtends(config, start, its, k + 1);
    var prefix := its[..k + 1];
    assert prefix[..k] == its[..k];
    var before := Replay(config, start, its[..k]);
    var request := Step(config, before.cursor, its[k]).request;
    assert Replay(config, start, prefix).requests == before.requests + [request];
    assert Replay(config, start, its).requests[k] == (before.requests + [request])[k];
  }

  /** Whether the chat accepted the messages changes nothing but what it
    * received. */
  lemma {:induction false} ReplayIgnoresDelivery(config: Config, start: int,
                                                 its1: seq<Iteration>, its2: seq<Iteration>)
    requires |its1| == |its2|
    requires forall k :: 0 <= k < |its1| ==> its1[k].now == its2[k].now && its1[k].reply == its2[k].reply
    ensures Replay(config, start, its1).cursor == Replay(config, start, its2).cursor
    ensures Replay(config, start, its1).requests == Replay(config, start, its2).requests
    ensures Replay(config, start, its1).attempted == Replay(config, start, its2).attempted
    decreases |its1|
  {
    if its1 != [] {
      var n := |its1| - 1;
      ReplayIgnoresDelivery(config, start, its1[..n], its2[..n]);
    }
  }

  /** When the chat accepts every send, it received every message attempted. */
  lemma {:induction false} ReplayAllDelivered(config: Config, start: int, its: seq<Iteration>)
    requires forall k :: 0 <= k < |its| ==> its[k].delivered
    ensures Replay(config, start, its).delivered == Replay(config, start, its).attempted
    decreases |its|
  {
    if its != [] {
      ReplayAllDelivered(config, start, its[..|its| - 1]);
    }
  }

  /** One pass through the body of `main`'s loop: the `try` block, whose
    * exceptions the `except` block turns into a failure message, and the
    * sends, whose failures `send_message` swallows. */
  method RunIteration(config: Config, cursor: Option<int>, it: Iteration)
    returns (request: Request, newCursor: Option<int>, attempted: seq<string>, delivered: seq<string>)
    ensures StepResult(request, newCursor, attempted, delivered) == Step(config, cursor, it)
  {
    request := ApiRequest(cursor, it.now, config.practicumToken);
    newCursor, attempted, delivered := cursor, [], [];
    // try
    var raised: Option<Exception> := None;
    var answer := GetApiAnswer(it.reply);
    if answer.Raise? {
      raised := Some(answer.exc);
    } else {
      var response := answer.value;
      var checked := CheckResponse(response);
      if checked.Raise? {
        raised := Some(checked.exc);
      } else {
        if checked.value.Some? {
          var message := ParseStatus(checked.value.value[0].value);
          if message.Raise? {
            raised := Some(message.exc);
          } else {
            attempted := [message.value];
            if it.delivered {
              delivered := [message.value];
            }
          }
        }
        if raised.None? {
          newCursor := response.currentDate;
        }
      }
    }
    // except
    if raised.Some? {
      var message := FailureMessage(raised.value);
      attempted := [message];
      if it.delivered {
        delivered := [message];
      }
    }
  }

  /** `main`: checks the tokens (and goes on whatever the answer), starts the
    * cursor at the current time, and runs the loop body once per element of
    * `iterations`. */
  method PollLoop(config: Config, start: int, iterations: seq<Iteration>)
    returns (cursor: Option<int>, requests: seq<Request>, attempted: seq<string>, delivered: seq<string>)
    ensures History(cursor, requests, attempted, delivered) == Replay(config, start, iterations)
  {
    var tokensPresent := CheckTokens(config.practicumToken, config.telegramToken, config.telegramChatId);
    cursor := Some(start);
    requests, attempted, delivered := [], [], [];
    var i := 0;
    while i < |iterations|
      invariant i <= |iterations|
      invariant History(cursor, requests, attempted, delivered) == Replay(config, start, iterations[..i])
    {
      var request, sent, received;
      request, cursor, sent, received := RunIteration(config, cursor, iterations[i]);
      requests := requests + [request];
      attempted := attempted + sent;
      delivered := delivered + received;
      assert iterations[..i + 1][..i] == iterations[..i];
      i := i + 1;
    }
    assert iterations[..i] == iterations;
  }
}
