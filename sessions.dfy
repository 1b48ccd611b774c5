/** Sessions: `_createSessionObject`'s checks, parsing and featured-speaker summary, and the
    type/time query. The datastore is the sequence of stored sessions, in storage order, and the
    conferences are a map from websafe key to organizer id. */
module Sessions {
  import opened Base
  import opened Lists
  import opened Dates

  /** A stored session; the start time is in minutes after midnight. */
  datatype Session = Session(
    key: string, name: string, speaker: string, conferenceKey: string, typeOfSession: string,
    startTime: nat, date: Date, duration: int)

  /** The SessionForm a client posts; an absent text field arrives as "". */
  datatype SessionForm = SessionForm(
    name: string, speaker: string, typeOfSession: string, startTime: string, date: string,
    duration: int, websafeConferenceKey: string)

  /** The exceptions `_createSessionObject` raises, in the order it checks for them. */
  datatype SessionError =
    | Unauthorized
    | NameRequired
    | ConferenceNotFound(websafeKey: string)
    | NotOrganizer
    | InvalidTime(text: string)
    | InvalidDate(text: string)

  /** The result of a creation: the stored session and the summary queued for the featured-speaker
      cache, if any. */
  datatype Created = Created(session: Session, featured: Option<string>)

  /** `Session.query(speaker == speaker, websafeConferenceKey == conferenceKey)`, in storage order. */
  function SpeakerSessions(sessions: seq<Session>, speaker: string, conferenceKey: string): (r: seq<Session>)
    ensures |r| <= |sessions|
    ensures forall s :: s in r <==> s in sessions && s.speaker == speaker && s.conferenceKey == conferenceKey
    ensures forall s :: (multiset(r)[s]
      == if s.speaker == speaker && s.conferenceKey == conferenceKey then multiset(sessions)[s] else 0)
  {
    if |sessions| == 0 then []
    else
      var last := sessions[|sessions| - 1];
      var front := SpeakerSessions(sessions[..|sessions| - 1], speaker, conferenceKey);
      assert sessions == sessions[..|sessions| - 1] + [last];
      assert multiset(sessions) == multiset(sessions[..|sessions| - 1]) + multiset{last};
      if last.speaker == speaker && last.conferenceKey == conferenceKey then front + [last] else front
  }

  /** The sessions' names, in order. */
  function Names(sessions: seq<Session>): (r: seq<string>)
    ensures |r| == |sessions| && forall i :: 0 <= i < |r| ==> r[i] == sessions[i].name
  {
    if |sessions| == 0 then [] else Names(sessions[..|sessions| - 1]) + [sessions[|sessions| - 1].name]
  }

  /** "Speaker: X Sessions: A, B". */
  function Summary(speaker: string, sessions: seq<Session>): string
  {
    "Speaker: " + speaker + " Sessions: " + Join(Names(sessions), ", ")
  }

  /** The featured-speaker condition as written: the query runs before the new session is stored,
      so only sessions that already existed are counted and listed, and more than one must exist. */
  function FeaturedSpeakerAsWritten(existing: seq<Session>, session: Session): Option<string>
  {
    var same := SpeakerSessions(existing, session.speaker, session.conferenceKey);
    if |same| > 1 then Some(Summary(session.speaker, same)) else None
  }

  /** The featured-speaker condition as intended: the speaker has more than one session at the
      conference once the new one is stored, and the summary lists them all. */
  function FeaturedSpeaker(existing: seq<Session>, session: Session): Option<string>
  {
    var same := SpeakerSessions(existing + [session], session.speaker, session.conferenceKey);
    if |same| > 1 then Some(Summary(session.speaker, same)) else None
  }

  lemma SpeakerSessionsSnoc(existing: seq<Session>, session: Session)
    ensures SpeakerSessions(existing + [session], session.speaker, session.conferenceKey)
         == SpeakerSessions(existing, session.speaker, session.conferenceKey) + [session]
  {
    assert (existing + [session])[..|existing|] == existing;
  }

  /** A speaker is featured exactly when they already have a session at that conference; the
      summary then lists their earlier sessions in storage order, followed by the new one. */
  lemma FeaturedSpeakerWhen(existing: seq<Session>, session: Session)
    ensures FeaturedSpeaker(existing, session).Some?
        <==> exists s :: s in existing && s.speaker == session.speaker && s.conferenceKey == session.conferenceKey
    ensures FeaturedSpeaker(existing, session).Some? ==>
      FeaturedSpeaker(existing, session).value
      == Summary(session.speaker, SpeakerSessions(existing, session.speaker, session.conferenceKey) + [session])
  {
    var before := SpeakerSessions(existing, session.speaker, session.conferenceKey);
    SpeakerSessionsSnoc(existing, session);
    if exists s :: s in existing && s.speaker == session.speaker && s.conferenceKey == session.conferenceKey {
      var s :| s in existing && s.speaker == session.speaker && s.conferenceKey == session.conferenceKey;
      assert s in before;
    }
  }

  /** The as-written summary only appears when the intended one does, one session later. */
  lemma FeaturedSpeakerAsWrittenLags(existing: seq<Session>, session: Session)
    ensures FeaturedSpeakerAsWritten(existing, session).Some? ==> FeaturedSpeaker(existing, session).Some?
  {
    SpeakerSessionsSnoc(existing, session);
  }

  /** Two sessions of one speaker at one conference are both found, in order. */
  lemma SpeakerSessionsOfTwo(first: Session, second: Session)
    requires first.speaker == second.speaker && first.conferenceKey == second.conferenceKey
    ensures SpeakerSessions([first], second.speaker, second.conferenceKey) == [first]
    ensures SpeakerSessions([first, second], second.speaker, second.conferenceKey) == [first, second]
  {
    SpeakerSessionsSnoc([], first);
    assert [] + [first] == [first];
    SpeakerSessionsSnoc([first], second);
    assert [first] + [second] == [first, second];
  }

  lemma SummaryOfTwo(speaker: string, first: Session, second: Session)
    ensures Summary(speaker, [first, second]) == "Speaker: " + speaker + " Sessions: " + first.name + ", " + second.name
  {
    assert Names([first, second]) == [first.name, second.name];
    assert [first.name, second.name][1..] == [second.name];
    var prefix := "Speaker: " + speaker + " Sessions: ";
    assert Summary(speaker, [first, second]) == prefix + (first.name + ", " + second.name);
  }

  /** A speaker's second session at a conference: as written nothing is featured, as intended both
      sessions are. */
  lemma SecondSessionFeatured(first: Session, second: Session)
    requires first.speaker == second.speaker && first.conferenceKey == second.conferenceKey
    ensures FeaturedSpeakerAsWritten([first], second) == None
    ensures FeaturedSpeaker([first], second)
         == Some("Speaker: " + second.speaker + " Sessions: " + first.name + ", " + second.name)
  {
    SpeakerSessionsOfTwo(first, second);
    assert [first] + [second] == [first, second];
    SummaryOfTwo(second.speaker, first, second);
  }

  lemma ThirdSessionAsWritten(first: Session, second: Session, third: Session)
    requires first.speaker == second.speaker == third.speaker
    requires first.conferenceKey == second.conferenceKey == third.conferenceKey
    ensures FeaturedSpeakerAsWritten([first, second], third) == Some(Summary(third.speaker, [first, second]))
  {
    SpeakerSessionsOfTwo(first, second);
  }

  lemma ThirdSessionIntended(first: Session, second: Session, third: Session)
    requires first.speaker == second.speaker == third.speaker
    requires first.conferenceKey == second.conferenceKey == third.conferenceKey
    ensures FeaturedSpeaker([first, second], third) == Some(Summary(third.speaker, [first, second, third]))
  {
    var existing := [first, second];
    SpeakerSessionsOfTwo(first, second);
    SpeakerSessionsSnoc(existing, third);
    assert existing + [third] == [first, second, third];
    var same := SpeakerSessions(existing + [third], third.speaker, third.conferenceKey);
    assert same == [first, second, third];
    assert FeaturedSpeaker(existing, third) == Some(Summary(third.speaker, same));
  }

  /** A speaker's third session at a conference: as written the speaker is featured, but the
      summary lists only the two earlier sessions; as intended it lists all three. */
  lemma ThirdSessionFeatured(first: Session, second: Session, third: Session)
    requires first.speaker == second.speaker == third.speaker
    requires first.conferenceKey == second.conferenceKey == third.conferenceKey
    ensures FeaturedSpeakerAsWritten([first, second], third) == Some(Summary(third.speaker, [first, second]))
    ensures FeaturedSpeaker([first, second], third) == Some(Summary(third.speaker, [first, second, third]))
  {
    ThirdSessionAsWritten(first, second, third);
    ThirdSessionIntended(first, second, third);
  }

  /** `_createSessionObject` up to the datastore write: who may create, the conference lookup,
      the time and date parsing, and the featured-speaker summary it queues. `newKey` is the key
      the datastore allocates. */
  function CreateSession(form: SessionForm, userId: Option<string>, conferences: map<string, string>,
                         existing: seq<Session>, newKey: string): (r: Result<Created, SessionError>)
    ensures userId.None? ==> r == Err(Unauthorized)
    ensures userId.Some? && form.name == "" ==> r == Err(NameRequired)
    ensures userId.Some? && form.name != "" && form.websafeConferenceKey !in conferences ==>
      r == Err(ConferenceNotFound(form.websafeConferenceKey))
    ensures (userId.Some? && form.name != "" && form.websafeConferenceKey in conferences
             && userId.value != conferences[form.websafeConferenceKey]) ==> r == Err(NotOrganizer)
    ensures r.Ok? <==>
      && userId.Some? && form.name != "" && form.websafeConferenceKey in conferences
      && userId.value == conferences[form.websafeConferenceKey]
      && ParseTime(form.startTime).Some? && ParseDate(form.date).Some?
    ensures r.Err? && r.error.InvalidTime? ==> ParseTime(form.startTime).None? && r.error.text == form.startTime
    ensures r.Err? && r.error.InvalidDate? ==>
      ParseTime(form.startTime).Some? && ParseDate(form.date).None? && r.error.text == form.date
    ensures r.Ok? ==>
      && r.value.session.key == newKey
      && r.value.session.name == form.name && r.value.session.speaker == form.speaker
      && r.value.session.conferenceKey == form.websafeConferenceKey
      && r.value.session.typeOfSession == form.typeOfSession && r.value.session.duration == form.duration
      && ParseTime(form.startTime) == Some(r.value.session.startTime)
      && ParseDate(form.date) == Some(r.value.session.date)
      && r.value.featured == FeaturedSpeaker(existing, r.value.session)
  {
    if userId.None? then Err(Unauthorized)
    else if form.name == "" then Err(NameRequired)
    else if form.websafeConferenceKey !in conferences then Err(ConferenceNotFound(form.websafeConferenceKey))
    else if userId.value != conferences[form.websafeConferenceKey] then Err(NotOrganizer)
    else
      match ParseTime(form.startTime)
      case None => Err(InvalidTime(form.startTime))
      case Some(startTime) =>
        match ParseDate(form.date)
        case None => Err(InvalidDate(form.date))
        case Some(date) =>
          var session := Session(newKey, form.name, form.speaker, form.websafeConferenceKey,
                                 form.typeOfSession, startTime, date, form.duration);
          Ok(Created(session, FeaturedSpeaker(existing, session)))
  }

  /** The keys of the sessions a query selects. */
  function KeysWhere(sessions: seq<Session>, typeOfSession: Option<string>, before: Option<nat>): set<string>
  {
    set s | s in sessions
              && (typeOfSession.Some? ==> s.typeOfSession != typeOfSession.value)
              && (before.Some? ==> s.startTime < before.value)
      :: s.key
  }

  /** `getSessionsByTypeTime`: the keys of sessions whose type differs from `typeOfSession`,
      intersected with the keys of sessions that start before `startTime`. A start time
      `strptime` rejects is an error. */
  function SessionsByTypeTime(sessions: seq<Session>, typeOfSession: string, startTime: string): (r: Option<set<string>>)
    ensures r.None? <==> ParseTime(startTime).None?
    ensures r.Some? ==> forall k :: k in r.value ==>
      (exists s :: s in sessions && s.key == k && s.typeOfSession != typeOfSession)
      && (exists s :: s in sessions && s.key == k && s.startTime < ParseTime(startTime).value)
    ensures r.Some? ==> forall s ::
      (s in sessions && s.typeOfSession != typeOfSession && s.startTime < ParseTime(startTime).value) ==> s.key in r.value
  {
    match ParseTime(startTime)
    case None => None
    case Some(before) => Some(KeysWhere(sessions, Some(typeOfSession), None) * KeysWhere(sessions, None, Some(before)))
  }

  /** No two stored sessions share a key. */
  predicate UniqueKeys(sessions: seq<Session>)
  {
    forall i, j :: 0 <= i < |sessions| && 0 <= j < |sessions| && sessions[i].key == sessions[j].key ==> i == j
  }

  /** With distinct keys, the intersection of the two key sets is exactly the sessions that meet
      both conditions; with a key shared by two sessions it can also hold a key whose sessions
      each meet only one condition. */
  lemma SessionsByTypeTimeExact(sessions: seq<Session>, typeOfSession: string, startTime: string)
    requires UniqueKeys(sessions) && ParseTime(startTime).Some?
    ensures forall k :: k in SessionsByTypeTime(sessions, typeOfSession, startTime).value <==>
      exists s :: s in sessions && s.key == k && s.typeOfSession != typeOfSession && s.startTime < ParseTime(startTime).value
  {
    var before := ParseTime(startTime).value;
    var r := SessionsByTypeTime(sessions, typeOfSession, startTime).value;
    forall k | k in r
      ensures exists s :: s in sessions && s.key == k && s.typeOfSession != typeOfSession && s.startTime < before
    {
      var s1 :| s1 in sessions && s1.key == k && s1.typeOfSession != typeOfSession;
      var s2 :| s2 in sessions && s2.key == k && s2.startTime < before;
      var i :| 0 <= i < |sessions| && sessions[i] == s1;
      var j :| 0 <= j < |sessions| && sessions[j] == s2;
      assert i == j;
    }
  }
}
