/**
 * The pure stages of the notifier in homework.py: the verdict table, the
 * message formatter (`parse_status`), the response validator
 * (`check_response`), the token check (`check_tokens`) and the parts of the
 * API wrapper (`get_api_answer`) that are not network I/O: the request it
 * builds and what it makes of the reply.
 */
module Homework {
  import opened Python

  // ---------------------------------------------------------------------------
  // Data model
  // ---------------------------------------------------------------------------

  /** One entry of the `homeworks` list, as read with `dict.get`: a key that is
    * absent and a key whose value is null both read as None. */
  datatype Homework = Homework(name: Option<string>, status: Option<string>)

  /** The `homeworks` field of a response: subscripted with `[...]`, so an
    * absent key differs from a JSON null. */
  datatype HomeworksField =
    | Absent
    | Null
    | List(entries: seq<Option<Homework>>)   // None is a null element

  /** A decoded API response; `current_date` is read with `dict.get`. */
  datatype Response = Response(homeworks: HomeworksField, currentDate: Option<int>)

  /** The GET request the wrapper issues. */
  datatype Request = Request(url: string, authorization: string, fromDate: int)

  /** The body of a reply with status 200: either JSON that decodes to a
    * response, or a body whose decoding raises (its error text). */
  datatype Body = Decoded(response: Response) | Undecodable(text: string)

  /** What `requests.get` gave back: it raised (the exception's text), or a
    * reply arrived with a status code and a body. */
  datatype HttpReply =
    | TransportFailure(text: string)
    | Reply(statusCode: int, body: Body)

  // ---------------------------------------------------------------------------
  // Verdict table and formatter
  // ---------------------------------------------------------------------------

  const Endpoint := "https://practicum.yandex.ru/api/user_api/homework_statuses/"

  const HomeworkVerdicts: map<string, string> := map[
    "approved" := "Работа проверена: ревьюеру всё понравилось. Ура!",
    "reviewing" := "Работа взята на проверку ревьюером.",
    "rejected" := "Работа проверена: у ревьюера есть замечания."
  ]

  /** The head of every status message, up to the homework name. */
  const StatusChangedPrefix := "Изменился статус проверки работы \""

  /** `parse_status`: the message for a homework whose status is in the
    * verdict table; for any other status, None included, the table lookup
    * raises `KeyError(status)`. Logging an unknown status does not stop
    * the lookup. */
  function ParseStatus(homework: Homework): (r: Outcome<string>)
    ensures r.Ok? <==> homework.status in {Some("approved"), Some("reviewing"), Some("rejected")}
    ensures r.Raise? ==> r.exc == KeyError(homework.status)
    ensures homework.status == Some("approved") ==>
      r == Ok("Изменился статус проверки работы \"" + Str(homework.name) + "\". " + "Работа проверена: ревьюеру всё понравилось. Ура!")
    ensures homework.status == Some("reviewing") ==>
      r == Ok("Изменился статус проверки работы \"" + Str(homework.name) + "\". " + "Работа взята на проверку ревьюером.")
    ensures homework.status == Some("rejected") ==>
      r == Ok("Изменился статус проверки работы \"" + Str(homework.name) + "\". " + "Работа проверена: у ревьюера есть замечания.")
  {
    if homework.status.Some? && homework.status.value in HomeworkVerdicts then
      Ok(StatusChangedPrefix + Str(homework.name) + "\". " + HomeworkVerdicts[homework.status.value])
    else
      Raise(KeyError(homework.status))
  }

  /** No verdict text is a suffix of another one. */
  lemma VerdictsNotSuffixes(s1: string, s2: string)
    requires s1 in HomeworkVerdicts && s2 in HomeworkVerdicts
    ensures var v1, v2 := HomeworkVerdicts[s1], HomeworkVerdicts[s2];
      |v1| <= |v2| && v1 == v2[|v2| - |v1|..] ==> s1 == s2
  {
  }

  /** Of two suffixes of one string, the shorter is a suffix of the longer. */
  lemma SuffixOfSuffix(m: string, a: string, b: string)
    requires |a| <= |b| <= |m|
    requires m[|m| - |a|..] == a && m[|m| - |b|..] == b
    ensures b[|b| - |a|..] == a
  {
  }

  /** A status message tells which verdict was given and the name of the
    * homework: two homeworks whose statuses are known get the same message
    * only when their names print alike and their statuses are equal. */
  lemma ParseStatusInjective(h1: Homework, h2: Homework)
    requires ParseStatus(h1).Ok? && ParseStatus(h2).Ok?
    requires ParseStatus(h1) == ParseStatus(h2)
    ensures Str(h1.name) == Str(h2.name) && h1.status == h2.status
  {
    var s1, s2 := h1.status.value, h2.status.value;
    var v1, v2 := HomeworkVerdicts[s1], HomeworkVerdicts[s2];
    var m := ParseStatus(h1).value;
    var head1 := StatusChangedPrefix + Str(h1.name) + "\". ";
    var head2 := StatusChangedPrefix + Str(h2.name) + "\". ";
    assert m == head1 + v1 && m == head2 + v2;
    assert m[|m| - |v1|..] == v1;
    assert m[|m| - |v2|..] == v2;
    if |v1| <= |v2| {
      SuffixOfSuffix(m, v1, v2);
      VerdictsNotSuffixes(s1, s2);
    } else {
      SuffixOfSuffix(m, v2, v1);
      VerdictsNotSuffixes(s2, s1);
    }
    assert head1 == m[..|m| - |v1|] == head2;
    var p := |StatusChangedPrefix|;
    assert Str(h1.name) == head1[p..|head1| - 3] == head2[p..|head2| - 3] == Str(h2.name);
  }

  /** The failure for an unknown status names it: two unknown statuses raise
    * the same error only when they are the same value. */
  lemma UnknownStatusesRaiseDistinctErrors(h1: Homework, h2: Homework)
    requires ParseStatus(h1).Raise? && ParseStatus(h2).Raise?
    ensures ParseStatus(h1) == ParseStatus(h2) <==> h1.status == h2.status
  {
  }

  // ---------------------------------------------------------------------------
  // Response validator
  // ---------------------------------------------------------------------------

  /** `check_response`: the homework list when it is non-empty and its first
    * element is not null, nothing when it is null, empty or starts with null,
    * and `KeyError('homeworks')` when the key is missing. */
  function CheckResponse(response: Response): (r: Outcome<Option<seq<Option<Homework>>>>)
    ensures r.Raise? <==> response.homeworks.Absent?
    ensures r.Raise? ==> r.exc == KeyError(Some("homeworks"))
    ensures r.Ok? && r.value.Some? <==>
      response.homeworks.List? && |response.homeworks.entries| > 0 && response.homeworks.entries[0].Some?
    ensures r.Ok? && r.value.Some? ==> r.value.value == response.homeworks.entries
  {
    match response.homeworks
    case Absent => Raise(KeyError(Some("homeworks")))
    case Null => Ok(None)
    case List(entries) =>
      if |entries| > 0 && entries[0].Some? then Ok(Some(entries)) else Ok(None)
  }

  // ---------------------------------------------------------------------------
  // Token check
  // ---------------------------------------------------------------------------

  /** `check_tokens`: whether all three configuration values are set and
    * non-empty. Its only other effect is a log line. */
  function CheckTokens(practicumToken: Option<string>, telegramToken: Option<string>,
                       telegramChatId: Option<string>): (ok: bool)
    ensures ok <==> practicumToken.Some? && practicumToken.value != ""
                    && telegramToken.Some? && telegramToken.value != ""
                    && telegramChatId.Some? && telegramChatId.value != ""
  {
    var flags := [StrTruthy(practicumToken), StrTruthy(telegramToken), StrTruthy(telegramChatId)];
    AllIffEvery(flags);
    assert flags[0] && flags[1] && flags[2] <==> forall i :: 0 <= i < |flags| ==> flags[i];
    All(flags)
  }

  // ---------------------------------------------------------------------------
  // API wrapper
  // ---------------------------------------------------------------------------

  /** The request `get_api_answer` issues for poll cursor `cursor` at wall-clock
    * time `now`: it asks from the cursor, or from now when the cursor is None
    * or 0; the header is built from the API token, None printed as "None". */
  function ApiRequest(cursor: Option<int>, now: int, practicumToken: Option<string>): (q: Request)
    ensures q.url == Endpoint
    ensures cursor.Some? && cursor.value != 0 ==> q.fromDate == cursor.value
    ensures cursor.None? || cursor.value == 0 ==> q.fromDate == now
    ensures practicumToken.Some? ==> q.authorization == "OAuth " + practicumToken.value
    ensures practicumToken.None? ==> q.authorization == "OAuth None"
  {
    Request(Endpoint, "OAuth " + Str(practicumToken), IntOr(cursor, now))
  }

  /** What `get_api_answer` returns or raises for a reply: the decoded body
    * on status 200, `HTTPError` on any other status, and the exception of
    * the `requests` library re-raised otherwise. */
  function GetApiAnswer(reply: HttpReply): (r: Outcome<Response>)
    ensures r.Ok? <==> reply.Reply? && reply.statusCode == 200 && reply.body.Decoded?
    ensures r.Ok? ==> r.value == reply.body.response
    ensures reply.Reply? && reply.statusCode != 200 ==> r == Raise(HTTPError)
    ensures reply.TransportFailure? ==> r == Raise(RequestError(reply.text))
    ensures reply.Reply? && reply.statusCode == 200 && reply.body.Undecodable? ==>
      r == Raise(RequestError(reply.body.text))
  {
    match reply
    case TransportFailure(text) => Raise(RequestError(text))
    case Reply(code, body) =>
      if code != 200 then Raise(HTTPError)
      else match body
        case Decoded(response) => Ok(response)
        case Undecodable(text) => Raise(RequestError(text))
  }

  /** `get_api_answer` as written: when `requests.get` itself raises, the
    * handler's log text reads `response`, which was never assigned, so an
    * `UnboundLocalError` replaces the request's own exception. */
  function GetApiAnswerAsWritten(reply: HttpReply): (r: Outcome<Response>)
    ensures reply.Reply? ==> r == GetApiAnswer(reply)
    ensures reply.TransportFailure? ==> r == Raise(UnboundLocalError("response"))
  {
    match reply
    case TransportFailure(_) => Raise(UnboundLocalError("response"))
    case Reply(_, _) => GetApiAnswer(reply)
  }

  /** As written, every transport failure raises the same error, whatever
    * went wrong; the corrected wrapper keeps the failures apart. */
  lemma TransportFailureMasked(t1: string, t2: string)
    requires t1 != t2
    ensures GetApiAnswerAsWritten(TransportFailure(t1)) == GetApiAnswerAsWritten(TransportFailure(t2))
    ensures GetApiAnswer(TransportFailure(t1)) != GetApiAnswer(TransportFailure(t2))
  {
  }
}
