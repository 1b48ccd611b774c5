/** Registration for conferences and the session wishlist: the two lists a profile keeps and the
    seat counter a conference keeps, changed in place by `_conferenceRegistration`,
    `addSessionToWishlist` and `deleteSessionInWishlist`. */
module Registration {
  import opened Base
  import opened Lists

  const AlreadyInWishlist := "Session already in wishlist."
  const AddedToWishlist := "Session added to wishlist."
  const RemovedFromWishlist := "Session removed from wishlist."
  const NotInWishlist := "Session not found in wishlist."

  /** The stored profile of the caller (their identity has already been resolved). */
  class Profile {
    var conferenceKeysToAttend: seq<string>
    var sessionWishlist: seq<string>

    /** A profile as `_getProfileFromUser` creates it on first access: both lists empty. */
    constructor ()
      ensures conferenceKeysToAttend == [] && sessionWishlist == []
    {
      conferenceKeysToAttend := [];
      sessionWishlist := [];
    }

    /** `addSessionToWishlist`: append the key unless it is already there. */
    method AddSessionToWishlist(sessionKey: string) returns (msg: string)
      modifies this
      ensures sessionKey in old(sessionWishlist) ==>
        sessionWishlist == old(sessionWishlist) && msg == AlreadyInWishlist
      ensures sessionKey !in old(sessionWishlist) ==>
        sessionWishlist == old(sessionWishlist) + [sessionKey] && msg == AddedToWishlist
      ensures sessionKey in sessionWishlist
      ensures NoDup(old(sessionWishlist)) ==> NoDup(sessionWishlist)
      ensures conferenceKeysToAttend == old(conferenceKeysToAttend)
    {
      if sessionKey in sessionWishlist {
        msg := AlreadyInWishlist;
      } else {
        sessionWishlist := sessionWishlist + [sessionKey];
        msg := AddedToWishlist;
      }
    }

    /** `deleteSessionInWishlist`: remove the key if it is there. */
    method DeleteSessionInWishlist(sessionKey: string) returns (msg: string)
      modifies this
      ensures sessionKey in old(sessionWishlist) ==>
        sessionWishlist == RemoveFirst(old(sessionWishlist), sessionKey) && msg == RemovedFromWishlist
      ensures sessionKey !in old(sessionWishlist) ==>
        sessionWishlist == old(sessionWishlist) && msg == NotInWishlist
      ensures NoDup(old(sessionWishlist)) ==> NoDup(sessionWishlist) && sessionKey !in sessionWishlist
      ensures conferenceKeysToAttend == old(conferenceKeysToAttend)
    {
      if sessionKey in sessionWishlist {
        if NoDup(sessionWishlist) {
          RemoveFirstNoDup(sessionWishlist, sessionKey);
        }
        sessionWishlist := RemoveFirst(sessionWishlist, sessionKey);
        msg := RemovedFromWishlist;
      } else {
        msg := NotInWishlist;
      }
    }
  }

  /** A stored conference; only its seat counter changes after creation. */
  class Conference {
    const name: string
    const maxAttendees: int
    var seatsAvailable: int

    constructor (name: string, maxAttendees: int, seatsAvailable: int)
      ensures this.name == name && this.maxAttendees == maxAttendees
      ensures this.seatsAvailable == seatsAvailable
    {
      this.name := name;
      this.maxAttendees := maxAttendees;
      this.seatsAvailable := seatsAvailable;
    }
  }

  /** NotFoundException, and the two ConflictExceptions. */
  datatype RegistrationError = ConferenceNotFound | AlreadyRegistered | NoSeatsAvailable

  /** `_conferenceRegistration`: `conf` is what looking up the key `wsck` found (null when it names
      no conference); `reg` chooses registering or unregistering. */
  method ConferenceRegistration(prof: Profile, conf: Conference?, wsck: string, reg: bool)
    returns (r: Result<bool, RegistrationError>)
    modifies prof, conf
    ensures prof.sessionWishlist == old(prof.sessionWishlist)
    ensures conf == null ==>
      r == Err(ConferenceNotFound) && prof.conferenceKeysToAttend == old(prof.conferenceKeysToAttend)
    ensures conf != null && reg ==>
      if wsck in old(prof.conferenceKeysToAttend) then
        r == Err(AlreadyRegistered) && prof.conferenceKeysToAttend == old(prof.conferenceKeysToAttend)
        && conf.seatsAvailable == old(conf.seatsAvailable)
      else if old(conf.seatsAvailable) <= 0 then
        r == Err(NoSeatsAvailable) && prof.conferenceKeysToAttend == old(prof.conferenceKeysToAttend)
        && conf.seatsAvailable == old(conf.seatsAvailable)
      else
        r == Ok(true) && prof.conferenceKeysToAttend == old(prof.conferenceKeysToAttend) + [wsck]
        && conf.seatsAvailable == old(conf.seatsAvailable) - 1
    ensures conf != null && !reg ==>
      if wsck in old(prof.conferenceKeysToAttend) then
        r == Ok(true) && prof.conferenceKeysToAttend == RemoveFirst(old(prof.conferenceKeysToAttend), wsck)
        && conf.seatsAvailable == old(conf.seatsAvailable) + 1
      else
        r == Ok(false) && prof.conferenceKeysToAttend == old(prof.conferenceKeysToAttend)
        && conf.seatsAvailable == old(conf.seatsAvailable)
    // the seat counter moves in lock-step with the number of times the key is in the list
    ensures conf != null ==>
      conf.seatsAvailable + multiset(prof.conferenceKeysToAttend)[wsck]
        == old(conf.seatsAvailable) + multiset(old(prof.conferenceKeysToAttend))[wsck]
    ensures NoDup(old(prof.conferenceKeysToAttend)) ==> NoDup(prof.conferenceKeysToAttend)
  {
    if conf == null {
      return Err(ConferenceNotFound);
    }
    if reg {
      if wsck in prof.conferenceKeysToAttend {
        return Err(AlreadyRegistered);
      }
      if conf.seatsAvailable <= 0 {
        return Err(NoSeatsAvailable);
      }
      prof.conferenceKeysToAttend := prof.conferenceKeysToAttend + [wsck];
      conf.seatsAvailable := conf.seatsAvailable - 1;
      r := Ok(true);
    } else {
      if wsck in prof.conferenceKeysToAttend {
        RemoveFirstMultiset(prof.conferenceKeysToAttend, wsck);
        if NoDup(prof.conferenceKeysToAttend) {
          RemoveFirstNoDup(prof.conferenceKeysToAttend, wsck);
        }
        prof.conferenceKeysToAttend := RemoveFirst(prof.conferenceKeysToAttend, wsck);
        conf.seatsAvailable := conf.seatsAvailable + 1;
        r := Ok(true);
      } else {
        r := Ok(false);
      }
    }
  }

  /** Registering and then unregistering the same key restores both the list and the counter. */
  method RegisterThenUnregister(prof: Profile, conf: Conference, wsck: string)
    returns (registered: Result<bool, RegistrationError>, unregistered: Result<bool, RegistrationError>)
    modifies prof, conf
    ensures registered == Ok(true) ==>
      && unregistered == Ok(true)
      && prof.conferenceKeysToAttend == old(prof.conferenceKeysToAttend)
      && conf.seatsAvailable == old(conf.seatsAvailable)
    ensures registered.Err? ==> unregistered == Ok(wsck in old(prof.conferenceKeysToAttend))
  {
    registered := ConferenceRegistration(prof, conf, wsck, true);
    if registered == Ok(true) {
      RemoveFirstAfterAppend(old(prof.conferenceKeysToAttend), wsck);
    }
    unregistered := ConferenceRegistration(prof, conf, wsck, false);
  }

  /** A conference with one seat: the first attendee gets it, a second is refused, and the first
      cannot register twice. */
  method OneSeatTwoAttendees()
  {
    var conf := new Conference("Summit", 1, 1);
    var alice := new Profile();
    var bob := new Profile();
    var first := ConferenceRegistration(alice, conf, "summit-key", true);
    assert first == Ok(true) && conf.seatsAvailable == 0;
    var second := ConferenceRegistration(bob, conf, "summit-key", true);
    assert second == Err(NoSeatsAvailable) && bob.conferenceKeysToAttend == [];
    var again := ConferenceRegistration(alice, conf, "summit-key", true);
    assert again == Err(AlreadyRegistered) && conf.seatsAvailable == 0;
  }
}
