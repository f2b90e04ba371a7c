/**
 * LineWebhook: one call of the webhook handler. The envelope has already
 * been verified and decoded (or not); every outside service the handler
 * talks to is an oracle whose answer may depend on everything that happened
 * earlier in the call (the trace so far) and on the argument. The outcome is
 * the HTTP status, the trace of calls made (each with the answer it got),
 * and the failure that ended the call, if any.
 *
 * The events are handled one after another; the first hard failure answers
 * 500 and abandons the rest. LineWebhookSpec is the reference definition;
 * the method LineWebhook is the handler's loop, proved equal to it.
 */
module Webhook {
  import opened Wrappers
  import opened Model
  import Links
  import Flex

  datatype Mentionee = UserMentionee(isSelf: bool, userId: string) | AllMentionee

  datatype Mention = Mention(mentionees: seq<Mentionee>)

  /** A text message (its Mention may be absent) or any other kind of message content. */
  datatype MessageContent =
    | TextMessage(text: string, mention: Option<Mention>)
    | OtherMessage

  /** Who sent the event. A room or group source names the user who spoke in it. */
  datatype Source =
    | UserSource(userId: string)
    | RoomSource(userId: string)
    | GroupSource(userId: string)
    | UnknownSource

  datatype Event =
    | MessageEvent(replyToken: string, source: Source, message: MessageContent)
    | OtherEvent

  /** What parsing the request gave: the events, a bad signature, or another error. */
  datatype ParseResult = Parsed(events: seq<Event>) | InvalidSignature | ParseError

  /** The answer of GetUserByLineID: an error, no such user (a nil record), or the user. */
  datatype Lookup = LookupError | NotFound | Found(user: User)

  datatype ReplyRequest = ReplyRequest(replyToken: string, messages: seq<Flex.FlexMessage>)

  /** One call to an outside service, with the answer it got. */
  datatype Call =
    | GetUserByLineID(lineId: string, lookup: Lookup)
    | GetProfile(lineId: string, displayName: Option<string>)
    | UpsertUserByLineID(user: User, ok: bool)
    | CreatePlaces(places: seq<Place>, ok: bool)
    | FetchPreview(link: string, preview: Option<Flex.Preview>)
    | ReplyMessage(request: ReplyRequest, ok: bool)

  /**
   * The outside world: each answer is a function of the calls made so far
   * in this request and of the argument. getProfile answers the display
   * name or fails; upsertUser, createPlaces (CreatePlaces inside WithTx)
   * and replyMessage answer success; newUuid gives uuid.New() for the k-th
   * link.
   */
  datatype Oracle = Oracle(
    getUser: (seq<Call>, string) -> Lookup,
    getProfile: (seq<Call>, string) -> Option<string>,
    upsertUser: (seq<Call>, User) -> bool,
    newUuid: (seq<Call>, nat) -> GeneratedId,
    createPlaces: (seq<Call>, seq<Place>) -> bool,
    fetchPreview: (seq<Call>, string) -> Option<Flex.Preview>,
    replyMessage: (seq<Call>, ReplyRequest) -> bool)

  /** Why a call ended early. */
  datatype Failure =
    | BadSignature
    | DecodeFailure
    | UnresolvedSource
    | LookupFailure
    | ProfileFailure
    | UpsertFailure
    | NilUserDereference
    | PlaceIngestionFailure
    | SendFailure

  datatype Outcome = Outcome(status: nat, trace: seq<Call>, failure: Option<Failure>)

  /** The handling of one event: go on with the trace so far, or stop the call with a failure. */
  datatype Step = Continue(trace: seq<Call>) | Abort(trace: seq<Call>, failure: Failure)

  /** The status a failure is answered with: 400 for a bad signature, 500 for every other. */
  function StatusOf(f: Failure): (status: nat)
    ensures status == 400 <==> f == BadSignature
    ensures status == 400 || status == 500
  {
    if f == BadSignature then 400 else 500
  }

  /** isMentioned: some mentionee is the bot itself. */
  function IsMentioned(m: MessageContent): (b: bool)
    requires m.TextMessage?
    ensures m.mention.None? ==> !b
    ensures m.mention.Some? ==>
      (b <==> exists k :: 0 <= k < |m.mention.value.mentionees| &&
                           m.mention.value.mentionees[k].UserMentionee? &&
                           m.mention.value.mentionees[k].isSelf)
  {
    m.mention.Some? && SelfMentioned(m.mention.value.mentionees)
  }

  /** The loop of isMentioned, over the remaining mentionees. */
  function SelfMentioned(ms: seq<Mentionee>): (b: bool)
    ensures b <==> exists k :: 0 <= k < |ms| && ms[k].UserMentionee? && ms[k].isSelf
  {
    if ms == [] then false
    else if ms[0].UserMentionee? && ms[0].isSelf then true
    else
      var b := SelfMentioned(ms[1..]);
      assert b ==> exists k :: 0 <= k < |ms| && ms[k].UserMentionee? && ms[k].isSelf by {
        if b {
          var k :| 0 <= k < |ms[1..]| && ms[1..][k].UserMentionee? && ms[1..][k].isSelf;
          assert ms[k + 1] == ms[1..][k];
        }
      }
      b
  }

  /** The id of the sender, for the three source kinds that have one. */
  function SenderId(s: Source): Option<string>
  {
    match s
    case UserSource(id) => Some(id)
    case RoomSource(id) => Some(id)
    case GroupSource(id) => Some(id)
    case UnknownSource => None
  }

  /**
   * The places slice: make([]Place, n) holds n zero rows, and each link is
   * then appended after them with a fresh id, an empty name and the sender
   * as author.
   */
  function PlaceRows(links: seq<string>, userId: Uuid, ids: seq<GeneratedId>): seq<Place>
    requires |ids| == |links|
  {
    seq(|links|, _ => ZeroPlace) + seq(|links|, k requires 0 <= k < |links| => Place(ids[k], "", links[k], Some(userId)))
  }

  /** The ids uuid.New() gives the links, all drawn with the trace as it stands before the places are built. */
  function PlaceIds(o: Oracle, trace: seq<Call>, n: nat): (ids: seq<GeneratedId>)
    ensures |ids| == n
  {
    seq<GeneratedId>(n, k requires 0 <= k < n => o.newUuid(trace, k))
  }

  /**
   * The preview fetches, one per link in order: each answer is the
   * oracle's for the trace extended by the fetches before it.
   */
  function FetchAnswers(links: seq<string>, o: Oracle, trace: seq<Call>): (answers: seq<Option<Flex.Preview>>)
    ensures |answers| == |links|
  {
    if links == [] then []
    else
      var a := o.fetchPreview(trace, links[0]);
      [a] + FetchAnswers(links[1..], o, trace + [FetchPreview(links[0], a)])
  }

  /** The FetchPreview calls for links with the given answers. */
  function FetchCalls(links: seq<string>, answers: seq<Option<Flex.Preview>>): seq<Call>
    requires |answers| == |links|
  {
    seq(|links|, k requires 0 <= k < |links| => FetchPreview(links[k], answers[k]))
  }

  /** The reply messages: a card for each successful fetch, in order; a failed fetch is skipped. */
  function Cards(answers: seq<Option<Flex.Preview>>): seq<Flex.FlexMessage>
  {
    if answers == [] then []
    else
      var last := answers[|answers| - 1];
      Cards(answers[..|answers| - 1]) + (if last.Some? then [Flex.BuildPreviewFlex(last.value)] else [])
  }

  /** The number of successful fetches. */
  function Successes(answers: seq<Option<Flex.Preview>>): nat
  {
    if answers == [] then 0
    else Successes(answers[..|answers| - 1]) + (if answers[|answers| - 1].Some? then 1 else 0)
  }

  /**
   * The part of a message event after the sender is known to exist (user is
   * the record found, or None after a first-sighting upsert): build the
   * places, insert them, fetch the previews and reply.
   */
  function AfterUser(replyToken: string, text: string, user: Option<User>, o: Oracle, trace: seq<Call>): Step
  {
    AfterLinks(replyToken, Links.ExtractPossibleLinks(text), user, o, trace)
  }

  /** The same, once the links of the text are extracted. */
  function AfterLinks(replyToken: string, links: seq<string>, user: Option<User>, o: Oracle, trace: seq<Call>): Step
  {
    if |links| > 0 && user.None? then Abort(trace, NilUserDereference)
    else
      var places := if |links| == 0 then [] else PlaceRows(links, user.value.id, PlaceIds(o, trace, |links|));
      var created := o.createPlaces(trace, places);
      var t1 := trace + [CreatePlaces(places, created)];
      if !created then Abort(t1, PlaceIngestionFailure)
      else
        var answers := FetchAnswers(links, o, t1);
        var t2 := t1 + FetchCalls(links, answers);
        var request := ReplyRequest(replyToken, Cards(answers));
        var sent := o.replyMessage(t2, request);
        var t3 := t2 + [ReplyMessage(request, sent)];
        if sent then Continue(t3) else Abort(t3, SendFailure)
  }

  /** The handling of one event of the loop in LineWebhook. */
  function HandleEvent(e: Event, o: Oracle, trace: seq<Call>): Step
  {
    match e
    case OtherEvent => Continue(trace)
    case MessageEvent(replyToken, source, message) =>
      if message.TextMessage? && !IsMentioned(message) then Continue(trace)
      else
        var text := if message.TextMessage? then message.text else "";
        match SenderId(source)
        case None => Abort(trace, UnresolvedSource)
        case Some(lineId) =>
          var lookup := o.getUser(trace, lineId);
          var t1 := trace + [GetUserByLineID(lineId, lookup)];
          match lookup
          case LookupError => Abort(t1, LookupFailure)
          case Found(user) => AfterUser(replyToken, text, Some(user), o, t1)
          case NotFound =>
            var profile := o.getProfile(t1, lineId);
            var t2 := t1 + [GetProfile(lineId, profile)];
            if profile.None? then Abort(t2, ProfileFailure)
            else
              var newUser := User(NilUuid, lineId, profile.value);
              var upserted := o.upsertUser(t2, newUser);
              var t3 := t2 + [UpsertUserByLineID(newUser, upserted)];
              if !upserted then Abort(t3, UpsertFailure)
              else AfterUser(replyToken, text, None, o, t3)
  }

  /** The event loop: each event in turn, stopping at the first failure; 200 once all are done. */
  function RunEvents(events: seq<Event>, o: Oracle, trace: seq<Call>): Outcome
  {
    if events == [] then Outcome(200, trace, None)
    else match HandleEvent(events[0], o, trace)
      case Continue(t) => RunEvents(events[1..], o, t)
      case Abort(t, f) => Outcome(StatusOf(f), t, Some(f))
  }

  /** LineWebhook as a function: the answer to a parse failure, or the event loop from an empty trace. */
  function LineWebhookSpec(parse: ParseResult, o: Oracle): Outcome
  {
    match parse
    case InvalidSignature => Outcome(StatusOf(BadSignature), [], Some(BadSignature))
    case ParseError => Outcome(StatusOf(DecodeFailure), [], Some(DecodeFailure))
    case Parsed(events) => RunEvents(events, o, [])
  }

  // ---------------------------------------------------------------------
  // The handler, as the Go code runs it.

  /** LineWebhook: parse, then the event loop with its early returns. */
  method LineWebhook(parse: ParseResult, o: Oracle) returns (out: Outcome)
    ensures out == LineWebhookSpec(parse, o)
  {
    if parse.InvalidSignature? {
      return Outcome(400, [], Some(BadSignature));
    }
    if parse.ParseError? {
      return Outcome(500, [], Some(DecodeFailure));
    }
    var events := parse.events;
    var trace: seq<Call> := [];
    var i := 0;
    while i < |events|
      invariant i <= |events|
      invariant RunEvents(events, o, []) == RunEvents(events[i..], o, trace)
    {
      assert events[i..][1..] == events[i + 1..];
      var step := HandleMessageEvent(events[i], o, trace);
      if step.Abort? {
        return Outcome(500, step.trace, Some(step.failure));
      }
      trace := step.trace;
      i := i + 1;
    }
    out := Outcome(200, trace, None);
  }

  /** The body of the event loop for one event. */
  method HandleMessageEvent(e: Event, o: Oracle, trace0: seq<Call>) returns (step: Step)
    ensures step == HandleEvent(e, o, trace0)
    ensures step.Abort? ==> step.failure != BadSignature
  {
    if !e.MessageEvent? {
      return Continue(trace0);
    }
    var text := "";
    if e.message.TextMessage? {
      text := e.message.text;
      if !IsMentioned(e.message) {
        return Continue(trace0);
      }
    }
    var lineId := "";
    match e.source {
      case UserSource(id) => lineId := id;
      case RoomSource(id) => lineId := id;
      case GroupSource(id) => lineId := id;
      case UnknownSource => return Abort(trace0, UnresolvedSource);
    }
    var trace := trace0;
    var lookup := o.getUser(trace, lineId);
    trace := trace + [GetUserByLineID(lineId, lookup)];
    if lookup.LookupError? {
      return Abort(trace, LookupFailure);
    }
    var user: Option<User> := None;
    if lookup.Found? {
      user := Some(lookup.user);
    } else {
      var profile := o.getProfile(trace, lineId);
      trace := trace + [GetProfile(lineId, profile)];
      if profile.None? {
        return Abort(trace, ProfileFailure);
      }
      var newUser := User(NilUuid, lineId, profile.value);
      var upserted := o.upsertUser(trace, newUser);
      trace := trace + [UpsertUserByLineID(newUser, upserted)];
      if !upserted {
        return Abort(trace, UpsertFailure);
      }
    }
    step := CreateAndReply(e.replyToken, text, user, o, trace);
  }

  /** From the link extraction to the reply: the two append loops, the insert and the reply. */
  method CreateAndReply(replyToken: string, text: string, user: Option<User>, o: Oracle, trace0: seq<Call>)
    returns (step: Step)
    ensures step == AfterUser(replyToken, text, user, o, trace0)
    ensures step.Abort? ==> step.failure != BadSignature
  {
    var links := Links.ExtractPossibleLinks(text);
    var places := BuildPlaces(links, user, o, trace0);
    if places.None? {
      return Abort(trace0, NilUserDereference);
    }
    var created := o.createPlaces(trace0, places.value);
    var trace := trace0 + [CreatePlaces(places.value, created)];
    if !created {
      return Abort(trace, PlaceIngestionFailure);
    }
    var messages;
    trace, messages := FetchPreviews(links, o, trace);
    var request := ReplyRequest(replyToken, messages);
    var sent := o.replyMessage(trace, request);
    trace := trace + [ReplyMessage(request, sent)];
    if !sent {
      return Abort(trace, SendFailure);
    }
    step := Continue(trace);
  }

  /**
   * The places slice: n zero rows from make, then one appended row per link.
   * None is the nil-pointer dereference of user.ID, which the first append
   * reaches when the user record is nil.
   */
  method BuildPlaces(links: seq<string>, user: Option<User>, o: Oracle, trace: seq<Call>)
    returns (places: Option<seq<Place>>)
    ensures places.None? <==> |links| > 0 && user.None?
    ensures places.Some? ==>
      places.value == if |links| == 0 then [] else PlaceRows(links, user.value.id, PlaceIds(o, trace, |links|))
  {
    var rows: seq<Place> := seq(|links|, _ => ZeroPlace);
    if |links| == 0 {
      return Some(rows);
    }
    if user.None? {
      return None;
    }
    var ids := PlaceIds(o, trace, |links|);
    for k := 0 to |links|
      invariant |rows| == |links| + k
      invariant rows == seq(|links|, _ => ZeroPlace) +
        seq(k, j requires 0 <= j < k => Place(ids[j], "", links[j], Some(user.value.id)))
    {
      rows := rows + [Place(o.newUuid(trace, k), "", links[k], Some(user.value.id))];
    }
    places := Some(rows);
  }

  /** The preview loop: fetch each link, keep a card for each success, in order. */
  method FetchPreviews(links: seq<string>, o: Oracle, trace0: seq<Call>)
    returns (trace: seq<Call>, messages: seq<Flex.FlexMessage>)
    ensures trace == trace0 + FetchCalls(links, FetchAnswers(links, o, trace0))
    ensures messages == Cards(FetchAnswers(links, o, trace0))
  {
    ghost var done: seq<Option<Flex.Preview>> := [];
    trace := trace0;
    messages := [];
    for i := 0 to |links|
      invariant |done| == i
      invariant FetchAnswers(links, o, trace0) == done + FetchAnswers(links[i..], o, trace)
      invariant trace == trace0 + FetchCalls(links[..i], done)
      invariant messages == Cards(done)
    {
      var preview := o.fetchPreview(trace, links[i]);
      FetchStep(links, i, o, trace0, trace, done, preview);
      trace := trace + [FetchPreview(links[i], preview)];
      if preview.Some? {
        messages := messages + [Flex.BuildPreviewFlex(preview.value)];
      }
      done := done + [preview];
    }
    assert links[..|links|] == links;
    assert links[|links|..] == [];
    assert FetchAnswers(links[|links|..], o, trace) == [];
    assert done + [] == done;
  }

  /** One turn of the preview loop keeps its three invariants. */
  lemma FetchStep(links: seq<string>, i: nat, o: Oracle, trace0: seq<Call>, trace: seq<Call>,
                  done: seq<Option<Flex.Preview>>, preview: Option<Flex.Preview>)
    requires |done| == i < |links|
    requires FetchAnswers(links, o, trace0) == done + FetchAnswers(links[i..], o, trace)
    requires trace == trace0 + FetchCalls(links[..i], done)
    requires preview == o.fetchPreview(trace, links[i])
    ensures FetchAnswers(links, o, trace0) ==
      (done + [preview]) + FetchAnswers(links[i + 1..], o, trace + [FetchPreview(links[i], preview)])
    ensures trace + [FetchPreview(links[i], preview)] == trace0 + FetchCalls(links[..i + 1], done + [preview])
    ensures Cards(done + [preview]) == Cards(done) + if preview.Some? then [Flex.BuildPreviewFlex(preview.value)] else []
  {
    FetchAnswersStep(links, i, o, trace);
    var rest := FetchAnswers(links[i + 1..], o, trace + [FetchPreview(links[i], preview)]);
    assert done + ([preview] + rest) == (done + [preview]) + rest;
    FetchCallsSnoc(links, i, done, preview);
    CardsSnoc(done, preview);
  }

  lemma FetchAnswersStep(links: seq<string>, i: nat, o: Oracle, trace: seq<Call>)
    requires i < |links|
    ensures var a := o.fetchPreview(trace, links[i]);
      FetchAnswers(links[i..], o, trace) == [a] + FetchAnswers(links[i + 1..], o, trace + [FetchPreview(links[i], a)])
  {
    assert links[i..][1..] == links[i + 1..];
  }

  lemma FetchCallsSnoc(links: seq<string>, i: nat, done: seq<Option<Flex.Preview>>, a: Option<Flex.Preview>)
    requires |done| == i < |links|
    ensures FetchCalls(links[..i + 1], done + [a]) == FetchCalls(links[..i], done) + [FetchPreview(links[i], a)]
  {
  }

  lemma CardsSnoc(done: seq<Option<Flex.Preview>>, a: Option<Flex.Preview>)
    ensures Cards(done + [a]) == Cards(done) + if a.Some? then [Flex.BuildPreviewFlex(a.value)] else []
  {
    assert (done + [a])[..|done|] == done;
  }

  // ---------------------------------------------------------------------
  // Properties of the handler.

  /** The previews recorded by the FetchPreview calls among calls, in order. */
  function RecordedPreviews(calls: seq<Call>): seq<Option<Flex.Preview>>
  {
    if calls == [] then []
    else
      var last := calls[|calls| - 1];
      RecordedPreviews(calls[..|calls| - 1]) + (if last.FetchPreview? then [last.preview] else [])
  }

  /** The links of the FetchPreview calls among calls, in order. */
  function RecordedLinks(calls: seq<Call>): seq<string>
  {
    if calls == [] then []
    else
      var last := calls[|calls| - 1];
      RecordedLinks(calls[..|calls| - 1]) + (if last.FetchPreview? then [last.link] else [])
  }

  lemma {:induction false} RecordedAppend(a: seq<Call>, b: seq<Call>)
    ensures RecordedPreviews(a + b) == RecordedPreviews(a) + RecordedPreviews(b)
    ensures RecordedLinks(a + b) == RecordedLinks(a) + RecordedLinks(b)
    decreases |b|
  {
    if b == [] {
      assert a + b == a;
    } else {
      var b' := b[..|b| - 1];
      assert (a + b)[..|a + b| - 1] == a + b';
      RecordedAppend(a, b');
    }
  }

  lemma {:induction false} RecordedFetchCalls(links: seq<string>, answers: seq<Option<Flex.Preview>>)
    requires |answers| == |links|
    ensures RecordedPreviews(FetchCalls(links, answers)) == answers
    ensures RecordedLinks(FetchCalls(links, answers)) == links
    decreases |links|
  {
    if links != [] {
      var n := |links| - 1;
      var calls := FetchCalls(links, answers);
      assert calls[..n] == FetchCalls(links[..n], answers[..n]);
      RecordedFetchCalls(links[..n], answers[..n]);
      assert links[..n] + [links[n]] == links;
      assert answers[..n] + [answers[n]] == answers;
    }
  }

  /** A parse failure answers 400 for a bad signature and 500 otherwise, and calls nothing. */
  lemma ParseFailureCallsNothing(parse: ParseResult, o: Oracle)
    requires !parse.Parsed?
    ensures LineWebhookSpec(parse, o).trace == []
    ensures LineWebhookSpec(parse, o).status == if parse.InvalidSignature? then 400 else 500
  {
  }

  /** AfterUser only adds calls, and at least the insert and the reply when it completes. */
  lemma AfterUserGrows(replyToken: string, text: string, user: Option<User>, o: Oracle, trace: seq<Call>)
    ensures var t := AfterUser(replyToken, text, user, o, trace).trace;
      |t| >= |trace| && t[..|trace|] == trace
    ensures AfterUser(replyToken, text, user, o, trace).Continue? ==>
      |AfterUser(replyToken, text, user, o, trace).trace| >= |trace| + 2
  {
    var links := Links.ExtractPossibleLinks(text);
    if !(|links| > 0 && user.None?) {
      var places := if |links| == 0 then [] else PlaceRows(links, user.value.id, PlaceIds(o, trace, |links|));
      var created := o.createPlaces(trace, places);
      var t1 := trace + [CreatePlaces(places, created)];
      if created {
        var answers := FetchAnswers(links, o, t1);
        var request := ReplyRequest(replyToken, Cards(answers));
        var t2 := t1 + FetchCalls(links, answers);
        var t3 := t2 + [ReplyMessage(request, o.replyMessage(t2, request))];
        assert t3 == trace + ([CreatePlaces(places, created)] + FetchCalls(links, answers) + [ReplyMessage(request, o.replyMessage(t2, request))]);
      }
    }
  }

  /** A trace that extends mid, itself extending trace, extends trace. */
  lemma ExtendsThrough(trace: seq<Call>, mid: seq<Call>, t: seq<Call>)
    requires |trace| <= |mid| <= |t| && mid[..|trace|] == trace && t[..|mid|] == mid
    ensures t[..|trace|] == trace
  {
    assert t[..|trace|] == t[..|mid|][..|trace|];
  }

  /**
   * Handling an event only ever adds calls to the trace; a message event
   * that is not filtered out and completes adds at least the lookup, the
   * insert and the reply.
   */
  lemma HandleEventExtends(e: Event, o: Oracle, trace: seq<Call>)
    ensures |HandleEvent(e, o, trace).trace| >= |trace|
    ensures HandleEvent(e, o, trace).trace[..|trace|] == trace
    ensures HandleEvent(e, o, trace).Continue? && e.MessageEvent? &&
            !(e.message.TextMessage? && !IsMentioned(e.message)) ==>
      |HandleEvent(e, o, trace).trace| >= |trace| + 3
  {
    if e.MessageEvent? && !(e.message.TextMessage? && !IsMentioned(e.message)) && SenderId(e.source).Some? {
      var text := if e.message.TextMessage? then e.message.text else "";
      var lineId := SenderId(e.source).value;
      var lookup := o.getUser(trace, lineId);
      var t1 := trace + [GetUserByLineID(lineId, lookup)];
      if lookup.Found? {
        AfterUserGrows(e.replyToken, text, Some(lookup.user), o, t1);
        ExtendsThrough(trace, t1, HandleEvent(e, o, trace).trace);
      } else if lookup.NotFound? {
        var profile := o.getProfile(t1, lineId);
        var t2 := t1 + [GetProfile(lineId, profile)];
        if profile.Some? {
          var newUser := User(NilUuid, lineId, profile.value);
          var t3 := t2 + [UpsertUserByLineID(newUser, o.upsertUser(t2, newUser))];
          if o.upsertUser(t2, newUser) {
            AfterUserGrows(e.replyToken, text, None, o, t3);
            assert t3 == trace + [GetUserByLineID(lineId, lookup), GetProfile(lineId, profile), UpsertUserByLineID(newUser, true)];
            ExtendsThrough(trace, t3, HandleEvent(e, o, trace).trace);
          }
        }
      }
    }
  }

  /**
   * The filter: an event leaves the trace as it was and goes on exactly when
   * it is not a message event, or is a text message that does not mention
   * the bot. Any other message, a non-text one included, stops the call or
   * calls out.
   */
  lemma EventFilter(e: Event, o: Oracle, trace: seq<Call>)
    ensures HandleEvent(e, o, trace) == Continue(trace) <==>
      e.OtherEvent? || (e.message.TextMessage? && !IsMentioned(e.message))
  {
    HandleEventExtends(e, o, trace);
  }

  /** The calls of a completed AfterUser: insert, one fetch per link, reply. */
  function CompletedCalls(places: seq<Place>, links: seq<string>, answers: seq<Option<Flex.Preview>>, request: ReplyRequest): seq<Call>
    requires |answers| == |links|
  {
    [CreatePlaces(places, true)] + FetchCalls(links, answers) + [ReplyMessage(request, true)]
  }

  lemma CompletedCallsRecord(places: seq<Place>, links: seq<string>, answers: seq<Option<Flex.Preview>>, request: ReplyRequest)
    requires |answers| == |links|
    ensures RecordedPreviews(CompletedCalls(places, links, answers, request)) == answers
    ensures RecordedLinks(CompletedCalls(places, links, answers, request)) == links
  {
    var first := [CreatePlaces(places, true)];
    var fetches := FetchCalls(links, answers);
    var last := [ReplyMessage(request, true)];
    RecordedFetchCalls(links, answers);
    RecordedAppend(first, fetches);
    RecordedAppend(first + fetches, last);
    assert RecordedPreviews(first) == [] && RecordedLinks(first) == [] by {
      assert first[..0] == [];
    }
    assert RecordedPreviews(last) == [] && RecordedLinks(last) == [] by {
      assert last[..0] == [];
    }
  }

  /** A completed AfterUser appends exactly the completed calls, with the cards of the fetched answers in the reply. */
  lemma AfterUserCompleted(replyToken: string, text: string, user: Option<User>, o: Oracle, trace: seq<Call>)
    requires AfterUser(replyToken, text, user, o, trace).Continue?
    ensures var links := Links.ExtractPossibleLinks(text);
      exists places: seq<Place>, answers: seq<Option<Flex.Preview>> | |answers| == |links| ::
        AfterUser(replyToken, text, user, o, trace).trace ==
          trace + CompletedCalls(places, links, answers, ReplyRequest(replyToken, Cards(answers)))
  {
    var links := Links.ExtractPossibleLinks(text);
    var places := if |links| == 0 then [] else PlaceRows(links, user.value.id, PlaceIds(o, trace, |links|));
    var t1 := trace + [CreatePlaces(places, true)];
    var answers := FetchAnswers(links, o, t1);
    var request := ReplyRequest(replyToken, Cards(answers));
    assert AfterUser(replyToken, text, user, o, trace).trace == trace + CompletedCalls(places, links, answers, request);
  }

  /** The reply of a completed AfterUser carries the cards of the recorded previews, and the links fetched are those of the text. */
  lemma AfterUserReply(replyToken: string, text: string, user: Option<User>, o: Oracle, trace: seq<Call>)
    requires AfterUser(replyToken, text, user, o, trace).Continue?
    ensures var t := AfterUser(replyToken, text, user, o, trace).trace;
      var calls := t[|trace|..];
      |t| > |trace| && t[..|trace|] == trace &&
      calls[|calls| - 1] == ReplyMessage(ReplyRequest(replyToken, Cards(RecordedPreviews(calls))), true) &&
      RecordedLinks(calls) == Links.ExtractPossibleLinks(text)
  {
    var links := Links.ExtractPossibleLinks(text);
    AfterUserCompleted(replyToken, text, user, o, trace);
    var places: seq<Place>, answers: seq<Option<Flex.Preview>> :| |answers| == |links| &&
      AfterUser(replyToken, text, user, o, trace).trace ==
        trace + CompletedCalls(places, links, answers, ReplyRequest(replyToken, Cards(answers)));
    var calls := CompletedCalls(places, links, answers, ReplyRequest(replyToken, Cards(answers)));
    assert (trace + calls)[|trace|..] == calls;
    CompletedCallsRecord(places, links, answers, ReplyRequest(replyToken, Cards(answers)));
  }

  /** No call among calls is a preview fetch. */
  predicate NoFetch(calls: seq<Call>)
  {
    forall k :: 0 <= k < |calls| ==> !calls[k].FetchPreview?
  }

  lemma {:induction false} NoFetchRecordsNothing(calls: seq<Call>)
    requires NoFetch(calls)
    ensures RecordedPreviews(calls) == [] && RecordedLinks(calls) == []
    decreases |calls|
  {
    if calls != [] {
      NoFetchRecordsNothing(calls[..|calls| - 1]);
    }
  }

  /** A prefix of calls that fetches nothing changes neither the recorded previews nor the recorded links nor the last call. */
  lemma PrefixWithoutFetch(trace: seq<Call>, pre: seq<Call>, t: seq<Call>)
    requires NoFetch(pre)
    requires |t| > |trace + pre| && t[..|trace + pre|] == trace + pre
    ensures |t| > |trace| && t[..|trace|] == trace
    ensures RecordedPreviews(t[|trace|..]) == RecordedPreviews(t[|trace + pre|..])
    ensures RecordedLinks(t[|trace|..]) == RecordedLinks(t[|trace + pre|..])
    ensures t[|t| - 1] == t[|trace|..][|t| - |trace| - 1]
  {
    assert t[|trace|..] == pre + t[|trace + pre|..];
    NoFetchRecordsNothing(pre);
    RecordedAppend(pre, t[|trace + pre|..]);
  }

  /**
   * A message event that was handled to the end leaves calls ending in a
   * successful reply to the event's token whose messages are the cards of
   * the recorded previews, and the links fetched are the links of the
   * message text (none for a message that is not text).
   */
  lemma ReplyCarriesFetchedCards(e: Event, o: Oracle, trace: seq<Call>)
    requires HandleEvent(e, o, trace).Continue? && HandleEvent(e, o, trace).trace != trace
    ensures e.MessageEvent?
    ensures var t := HandleEvent(e, o, trace).trace;
      var calls := t[|trace|..];
      |t| > |trace| && t[..|trace|] == trace &&
      calls[|calls| - 1] == ReplyMessage(ReplyRequest(e.replyToken, Cards(RecordedPreviews(calls))), true) &&
      RecordedLinks(calls) == Links.ExtractPossibleLinks(if e.message.TextMessage? then e.message.text else "")
  {
    var text := if e.message.TextMessage? then e.message.text else "";
    var pre, user := CompletedEventReachesAfterUser(e, o, trace);
    AfterUserReply(e.replyToken, text, user, o, trace + pre);
    PrefixWithoutFetch(trace, pre, HandleEvent(e, o, trace).trace);
  }

  /** A completed message event is AfterUser after a lookup, and after a profile fetch and an upsert for a new sender. */
  lemma CompletedEventReachesAfterUser(e: Event, o: Oracle, trace: seq<Call>) returns (pre: seq<Call>, user: Option<User>)
    requires HandleEvent(e, o, trace).Continue? && HandleEvent(e, o, trace).trace != trace
    ensures e.MessageEvent? && NoFetch(pre)
    ensures HandleEvent(e, o, trace) ==
      AfterUser(e.replyToken, if e.message.TextMessage? then e.message.text else "", user, o, trace + pre)
  {
    assert e.MessageEvent? && !(e.message.TextMessage? && !IsMentioned(e.message));
    var text := if e.message.TextMessage? then e.message.text else "";
    assert SenderId(e.source).Some?;
    var lineId := SenderId(e.source).value;
    var lookup := o.getUser(trace, lineId);
    var t1 := trace + [GetUserByLineID(lineId, lookup)];
    if lookup.Found? {
      pre, user := [GetUserByLineID(lineId, lookup)], Some(lookup.user);
    } else {
      assert lookup.NotFound?;
      var profile := o.getProfile(t1, lineId);
      var t2 := t1 + [GetProfile(lineId, profile)];
      assert profile.Some?;
      var newUser := User(NilUuid, lineId, profile.value);
      assert o.upsertUser(t2, newUser);
      pre := [GetUserByLineID(lineId, lookup), GetProfile(lineId, profile), UpsertUserByLineID(newUser, true)];
      user := None;
      assert t2 + [UpsertUserByLineID(newUser, true)] == trace + pre;
    }
  }


  /**
   * The answer to a parsed batch: 200 with no failure, or 500 with the
   * failure that stopped the loop; the calls extend the trace given.
   */
  lemma {:induction false} RunEventsOutcome(events: seq<Event>, o: Oracle, trace: seq<Call>)
    ensures var out := RunEvents(events, o, trace);
      (out.status == 200 <==> out.failure.None?) &&
      (out.status == 200 || out.status == 500) &&
      |out.trace| >= |trace| && out.trace[..|trace|] == trace
    decreases |events|
  {
    if events != [] {
      HandleEventExtends(events[0], o, trace);
      match HandleEvent(events[0], o, trace)
      case Continue(t) =>
        RunEventsOutcome(events[1..], o, t);
        var out := RunEvents(events[1..], o, t);
        assert out.trace[..|trace|] == out.trace[..|t|][..|trace|];
      case Abort(t, f) =>
        assert f != BadSignature;
    }
  }

  /** The handler's Failure values from the loop are never the signature failure. */
  lemma HandleEventNeverBadSignature(e: Event, o: Oracle, trace: seq<Call>)
    ensures HandleEvent(e, o, trace).Abort? ==> HandleEvent(e, o, trace).failure != BadSignature
  {
  }

  /** Once an event fails, the events after it are never looked at. */
  lemma {:induction false} FailureStopsTheLoop(events: seq<Event>, more: seq<Event>, o: Oracle, trace: seq<Call>)
    requires RunEvents(events, o, trace).status != 200
    ensures RunEvents(events + more, o, trace) == RunEvents(events, o, trace)
    decreases |events|
  {
    assert events != [];
    assert (events + more)[0] == events[0];
    match HandleEvent(events[0], o, trace)
    case Continue(t) =>
      assert (events + more)[1..] == events[1..] + more;
      FailureStopsTheLoop(events[1..], more, o, t);
    case Abort(t, f) =>
  }

  /** A batch that succeeds hands its calls on to the events after it. */
  lemma {:induction false} SuccessComposes(events: seq<Event>, more: seq<Event>, o: Oracle, trace: seq<Call>)
    requires RunEvents(events, o, trace).status == 200
    ensures RunEvents(events + more, o, trace) == RunEvents(more, o, RunEvents(events, o, trace).trace)
    decreases |events|
  {
    if events == [] {
      assert events + more == more;
    } else {
      assert (events + more)[0] == events[0];
      match HandleEvent(events[0], o, trace)
      case Continue(t) =>
        assert (events + more)[1..] == events[1..] + more;
        SuccessComposes(events[1..], more, o, t);
      case Abort(t, f) =>
        RunEventsOutcome(events, o, trace);
    }
  }

  /** A batch of events that are all filtered out calls nothing and answers 200. */
  lemma {:induction false} IgnoredBatchCallsNothing(events: seq<Event>, o: Oracle, trace: seq<Call>)
    requires forall k :: 0 <= k < |events| ==>
      events[k].OtherEvent? || (events[k].message.TextMessage? && !IsMentioned(events[k].message))
    ensures RunEvents(events, o, trace) == Outcome(200, trace, None)
    decreases |events|
  {
    if events != [] {
      EventFilter(events[0], o, trace);
      IgnoredBatchCallsNothing(events[1..], o, trace);
    }
  }

  /**
   * The rows of a CreatePlaces batch: as many zero rows as links come
   * first, then one row per link, in order, with an empty name and the
   * sender as the adder.
   */
  lemma PlaceRowsShape(links: seq<string>, userId: Uuid, ids: seq<GeneratedId>)
    requires |ids| == |links|
    ensures var rows := PlaceRows(links, userId, ids);
      |rows| == 2 * |links| &&
      (forall k :: 0 <= k < |links| ==> rows[k].id == NilUuid && rows[k].url == "" && rows[k].addedBy.None?) &&
      (forall k :: 0 <= k < |links| ==>
        rows[|links| + k].url == links[k] && rows[|links| + k].id == ids[k] &&
        rows[|links| + k].name == "" && rows[|links| + k].addedBy == Some(userId))
  {
  }

  /** With two links or more the batch holds two rows with the same empty URL. */
  lemma ZeroRowsShareTheEmptyUrl(links: seq<string>, userId: Uuid, ids: seq<GeneratedId>)
    requires |ids| == |links| >= 2
    ensures var rows := PlaceRows(links, userId, ids);
      rows[0] != rows[|links|] && rows[0].url == rows[1].url == ""
  {
    PlaceRowsShape(links, userId, ids);
  }

  /** There is one card for each successful fetch. */
  lemma {:induction false} CardsCount(answers: seq<Option<Flex.Preview>>)
    ensures |Cards(answers)| == Successes(answers)
    decreases |answers|
  {
    if answers != [] {
      CardsCount(answers[..|answers| - 1]);
    }
  }

  /** The card of each successful fetch sits after the cards of the successes before it. */
  lemma {:induction false} CardsInOrder(answers: seq<Option<Flex.Preview>>, k: nat)
    requires k < |answers| && answers[k].Some?
    ensures Successes(answers[..k]) < |Cards(answers)|
    ensures Cards(answers)[Successes(answers[..k])] == Flex.BuildPreviewFlex(answers[k].value)
    decreases |answers|
  {
    var n := |answers| - 1;
    CardsCount(answers);
    CardsCount(answers[..n]);
    if k == n {
      assert answers[..k] == answers[..n];
    } else {
      assert answers[..n][..k] == answers[..k];
      CardsInOrder(answers[..n], k);
      assert Cards(answers) == Cards(answers[..n]) + (if answers[n].Some? then [Flex.BuildPreviewFlex(answers[n].value)] else []);
    }
  }

  /** Every card is the card of some successful fetch. */
  lemma {:induction false} CardsComeFromAnswers(answers: seq<Option<Flex.Preview>>, c: Flex.FlexMessage)
    requires c in Cards(answers)
    ensures exists k :: 0 <= k < |answers| && answers[k].Some? && c == Flex.BuildPreviewFlex(answers[k].value)
    decreases |answers|
  {
    var n := |answers| - 1;
    if c in Cards(answers[..n]) {
      CardsComeFromAnswers(answers[..n], c);
      var k :| 0 <= k < n && answers[..n][k].Some? && c == Flex.BuildPreviewFlex(answers[..n][k].value);
      assert answers[k] == answers[..n][k];
    } else {
      assert answers[n].Some? && c == Flex.BuildPreviewFlex(answers[n].value);
    }
  }

  /**
   * A sender seen for the first time whose message holds a link: the user
   * record stays nil after the upsert, so building the places dereferences
   * nil and the call ends there, with no place written and no reply sent.
   */
  lemma FirstSightingWithLinksFails(e: Event, o: Oracle, trace: seq<Call>)
    requires e.MessageEvent? && e.message.TextMessage? && IsMentioned(e.message)
    requires SenderId(e.source).Some?
    requires |Links.ExtractPossibleLinks(e.message.text)| > 0
    requires o.getUser(trace, SenderId(e.source).value) == NotFound
    requires forall t :: o.getProfile(t, SenderId(e.source).value).Some?
    requires forall t, u :: o.upsertUser(t, u)
    ensures HandleEvent(e, o, trace).Abort? && HandleEvent(e, o, trace).failure == NilUserDereference
    ensures var t := HandleEvent(e, o, trace).trace;
      |t| == |trace| + 3 && t[..|trace|] == trace &&
      forall k :: |trace| <= k < |t| ==> !t[k].CreatePlaces? && !t[k].ReplyMessage?
  {
  }

  /**
   * A mentioned text with two links from a known sender, where the first
   * link's preview is fetched and the second's fails: the insert holds two
   * zero rows and then the two links, both links are fetched in order, and
   * the reply holds the one card of the first link.
   */
  lemma TwoLinksOneFetchFails(replyToken: string, userId: string, text: string, m: Mention,
                              user: User, a: string, b: string, p: Flex.Preview, o: Oracle, trace: seq<Call>)
    requires IsMentioned(TextMessage(text, Some(m)))
    requires Links.ExtractPossibleLinks(text) == [a, b]
    requires o.getUser(trace, userId) == Found(user)
    requires forall t, ps :: o.createPlaces(t, ps)
    requires forall t :: o.fetchPreview(t, a) == Some(p)
    requires forall t :: o.fetchPreview(t, b) == None
    requires forall t, r :: o.replyMessage(t, r)
    ensures var e := MessageEvent(replyToken, UserSource(userId), TextMessage(text, Some(m)));
      var t1 := trace + [GetUserByLineID(userId, Found(user))];
      var rows := [ZeroPlace, ZeroPlace,
                   Place(o.newUuid(t1, 0), "", a, Some(user.id)), Place(o.newUuid(t1, 1), "", b, Some(user.id))];
      HandleEvent(e, o, trace) == Continue(t1 + [
        CreatePlaces(rows, true), FetchPreview(a, Some(p)), FetchPreview(b, None),
        ReplyMessage(ReplyRequest(replyToken, [Flex.BuildPreviewFlex(p)]), true)])
  {
    var t1 := trace + [GetUserByLineID(userId, Found(user))];
    assert HandleEvent(MessageEvent(replyToken, UserSource(userId), TextMessage(text, Some(m))), o, trace) ==
      AfterUser(replyToken, text, Some(user), o, t1);
    AfterUserTwoLinks(replyToken, text, user, a, b, p, o, t1);
  }

  lemma AfterUserTwoLinks(replyToken: string, text: string, user: User, a: string, b: string, p: Flex.Preview,
                          o: Oracle, t1: seq<Call>)
    requires Links.ExtractPossibleLinks(text) == [a, b]
    requires forall t, ps :: o.createPlaces(t, ps)
    requires forall t :: o.fetchPreview(t, a) == Some(p)
    requires forall t :: o.fetchPreview(t, b) == None
    requires forall t, r :: o.replyMessage(t, r)
    ensures var rows := [ZeroPlace, ZeroPlace,
                         Place(o.newUuid(t1, 0), "", a, Some(user.id)), Place(o.newUuid(t1, 1), "", b, Some(user.id))];
      AfterUser(replyToken, text, Some(user), o, t1) == Continue(t1 + [
        CreatePlaces(rows, true), FetchPreview(a, Some(p)), FetchPreview(b, None),
        ReplyMessage(ReplyRequest(replyToken, [Flex.BuildPreviewFlex(p)]), true)])
  {
    AfterTwoLinks(replyToken, user, a, b, p, o, t1);
  }

  lemma AfterTwoLinks(replyToken: string, user: User, a: string, b: string, p: Flex.Preview, o: Oracle, t1: seq<Call>)
    requires forall t, ps :: o.createPlaces(t, ps)
    requires forall t :: o.fetchPreview(t, a) == Some(p)
    requires forall t :: o.fetchPreview(t, b) == None
    requires forall t, r :: o.replyMessage(t, r)
    ensures var rows := [ZeroPlace, ZeroPlace,
                         Place(o.newUuid(t1, 0), "", a, Some(user.id)), Place(o.newUuid(t1, 1), "", b, Some(user.id))];
      AfterLinks(replyToken, [a, b], Some(user), o, t1) == Continue(t1 + [
        CreatePlaces(rows, true), FetchPreview(a, Some(p)), FetchPreview(b, None),
        ReplyMessage(ReplyRequest(replyToken, [Flex.BuildPreviewFlex(p)]), true)])
  {
    var links := [a, b];
    var ids := PlaceIds(o, t1, 2);
    assert PlaceRows(links, user.id, ids) ==
      [ZeroPlace, ZeroPlace, Place(o.newUuid(t1, 0), "", a, Some(user.id)), Place(o.newUuid(t1, 1), "", b, Some(user.id))];
    var t2 := t1 + [CreatePlaces(PlaceRows(links, user.id, ids), true)];
    TwoFetches(a, b, p, o, t2);
    OneCardOfTwo(p);
  }

  lemma TwoFetches(a: string, b: string, p: Flex.Preview, o: Oracle, t: seq<Call>)
    requires forall t :: o.fetchPreview(t, a) == Some(p)
    requires forall t :: o.fetchPreview(t, b) == None
    ensures FetchAnswers([a, b], o, t) == [Some(p), None]
    ensures FetchCalls([a, b], [Some(p), None]) == [FetchPreview(a, Some(p)), FetchPreview(b, None)]
  {
    assert [a, b][1..] == [b];
    var t' := t + [FetchPreview(a, Some(p))];
    assert FetchAnswers([b], o, t') == [None] + FetchAnswers([], o, t' + [FetchPreview(b, None)]);
  }

  lemma OneCardOfTwo(p: Flex.Preview)
    ensures Cards([Some(p), None]) == [Flex.BuildPreviewFlex(p)]
  {
    assert [Some(p), None][..1] == [Some(p)];
    assert [Some(p)][..0] == [];
    assert Cards([Some(p)]) == Cards([]) + [Flex.BuildPreviewFlex(p)];
    assert Cards([Some(p), None]) == Cards([Some(p)]) + [];
  }


}
