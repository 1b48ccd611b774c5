# Conference Central: a verified model of the service's rules

Conference Central is a Cloud Endpoints service (`conference.py`). Users create conferences and
sessions in it, query conferences with filters, register for conferences and keep a session
wishlist. Most of the file is glue between request messages, the datastore, memcache and the task
queue. This project models the rules under that glue and proves what they guarantee:

- **Filters** (module `Filters`, `filters.dfy`).
  - `_formatFilters` looks each filter's field and operator up in the `FIELDS` and `OPERATORS`
    tables. It rejects the whole batch on an unknown token.
  - It tracks the one field the datastore lets a query compare with an inequality.
  - `_getQuery` then orders the query by that field and then by name, and converts `month` and
    `maxAttendees` values with `int()`.
- **Registration** (module `Registration`, `registration.dfy`).
  - A `Profile` class holds the `conferenceKeysToAttend` and `sessionWishlist` lists.
  - A `Conference` class holds the `seatsAvailable` counter.
  - `_conferenceRegistration` and the two wishlist handlers change these in place.
  - `registerForConference` (conference.py:707-709) is the only caller of
    `_conferenceRegistration` and always passes `reg=True`. No endpoint reaches the unregister
    branch, which the model covers all the same.
- **Conference creation** (module `Creation`, `creation.dfy`). `_createConferenceObject` checks the
  caller and the name, drops the output-only fields, runs the `DEFAULTS` loop, parses the dates,
  derives the month, sets the seats and records the organizer.
- **Sessions** (module `Sessions`, `sessions.dfy`). `_createSessionObject` checks, in order:
  - the caller;
  - the name;
  - that the conference exists;
  - that the caller organizes it;
  - the time;
  - the date.

  It then computes the featured-speaker summary. The module also models the key-set intersection
  of `getSessionsByTypeTime`.
- **Announcements** (module `Announcements`, `announcements.dfy`). `_cacheAnnouncement` selects the
  conferences with one to five seats left, formats the "nearly sold out" text, and sets or deletes
  the cache entry. `getAnnouncement` reads that entry back.
- **Supporting modules.**
  - `Lists`: Python's `list.remove` and `str.join`.
  - `Numerals`: `int()` on decimal text.
  - `Dates`: `strptime` on `YYYY-MM-DD` and `HH:MM`.
  - `Base`: `Option` and `Result`.

How the model stands in for the service's state:

- The datastore is represented by values the caller passes in:
  - the looked-up `Conference` object (null when the key names none);
  - the sequence of stored sessions;
  - a map from conference key to organizer id.
- Memcache is a `map<string, string>`.
- The signed-in user is an `Option<string>` user id.
- The key the datastore allocates for a new session is a parameter.

Where the code does things step by step, the model does too:

- `FormatFilters` and `GetQuery` are methods with loops. `FormatFilters` is proved equal to the
  function `FormatResult`, which the lemmas characterise.
- Registration is a set of methods on classes.
- The `DEFAULTS` loop is a method with a loop.

The announcement and featured-speaker selectors are pure functions over sequences, as they are in
`conference.py`.

## Model

| member | source | states |
|---|---|---|
| Filters.TokenTables | conference.py:68-82 | Every field and every comparison is reached by exactly one token of FIELDS and OPERATORS respectively. |
| Filters.InequalitySymbol | conference.py:320-321 | A comparison is an inequality exactly when its datastore symbol is not "=". |
| Filters.FormatFilters | conference.py:305-336 | The loop's outcome is `FormatResult(specs)`: one pass from first to last, stopping at the first error. |
| Filters.FormatResultSucceeds | conference.py:313-333 | All or nothing: the batch is accepted if and only if every token is in its table and no two filters compare different fields with inequalities. |
| Filters.FormatResultErrors | conference.py:313-330 | The invalid-token error means some token is unknown. The inequality error means two fields are compared with inequalities. With every token known, two inequality fields always give the inequality error, whatever the order of the filters. |
| Filters.FormatResultErrPersists | conference.py:313-330 | Once a prefix of the filters fails, the call fails with that same error, whatever follows. |
| Filters.FormatResultOutput | conference.py:307-336 | On success the output has the input's length and order, and each filter is looked up through the tables. The inequality field is None exactly when every operator is "=". Otherwise every inequality filter is on that field. |
| Filters.TrackedField | conference.py:321-333 | After a successful pass every inequality filter is on the tracked field, and a tracked field comes from some inequality filter. |
| Filters.GetQuery | conference.py:284-303 | A filter error is passed on. The query succeeds if and only if every month/maxAttendees value is an integer numeral. The sort order is [inequality field, name], or [name] with no inequality. The filters are the looked-up ones, in input order, with numeric values converted. Every inequality filter is on the first sort key. A conversion error names the value of a month/maxAttendees filter that `int()` rejects, and every filter before it converts, so it is the first such value in input order. |
| Numerals.IntRoundTrip | conference.py:296-298 | Every integer written in decimal reads back through the model of `int()`. |
| Lists.RemoveFirstAt | conference.py:610 | `list.remove` keeps the elements before the first occurrence and shifts the later ones down by one. |
| Lists.RemoveFirstSplits | conference.py:610 | `list.remove` equals the list cut at the first occurrence with the gap closed. |
| Lists.RemoveFirstMultiset | conference.py:693 | `list.remove` drops exactly one copy of the key and keeps every other element. |
| Lists.RemoveFirstNoDup | conference.py:610 | On a duplicate-free list, removing a key leaves the list duplicate-free and without that key. |
| Lists.RemoveFirstAfterAppend | conference.py:683-693 | Appending an absent key and then removing it gives back the original list. |
| Registration.Profile.AddSessionToWishlist | conference.py:575-579 | A present key leaves the wishlist unchanged and reports "Session already in wishlist.". Otherwise the key is appended and the reply is "Session added to wishlist.". Afterwards the key is in the wishlist, a duplicate-free wishlist stays duplicate-free, and the attending list is untouched. |
| Registration.Profile.DeleteSessionInWishlist | conference.py:609-613 | A present key's first occurrence is removed, with "Session removed from wishlist.". Otherwise the wishlist is unchanged, with "Session not found in wishlist.". A duplicate-free wishlist stays duplicate-free and no longer holds the key. The attending list is untouched. |
| Registration.ConferenceRegistration | conference.py:657-702 | A missing conference is NotFound and changes nothing. Registering checks "already registered" before "no seats", and either error changes nothing. Registering appends the key once and takes one seat. Unregistering a present key removes it and adds a seat back, with no clamp to maxAttendees. Unregistering an absent key returns false and changes nothing. Throughout, the seat count plus the key's count in the list is constant. A duplicate-free list stays duplicate-free. The wishlist is never touched. |
| Registration.RegisterThenUnregister | conference.py:682-697 | A successful register followed by an unregister restores the attending list and the seat counter. A refused register leaves the unregister's result to whether the key was already there. |
| Creation.Defaulted | conference.py:221-223 | A field that arrives as None or [] takes its DEFAULTS value, so the result is never None or []. |
| Creation.ApplyDefaults | conference.py:220-224 | The loop over DEFAULTS replaces exactly the city, maxAttendees, seatsAvailable and topics values that are None or [] and changes nothing else. |
| Creation.CreateConferenceData | conference.py:201-251 | The errors come in order: Unauthorized without a user, then a missing name, then an unparsable start date, then an unparsable end date (each date read from its first ten characters). Creation succeeds if and only if none of these applies. The result keeps the name and the other fields and applies the defaults. The start and end dates become parsed dates. The month is the start date's month, or 0 without a start date, and so lies in 0..12. seatsAvailable equals maxAttendees when that is positive and is the defaulted request value otherwise. organizerUserId is the caller. |
| Dates.DateRoundTrip | conference.py:229-236 | A date written as `YYYY-MM-DD` parses back, both whole and with any suffix after its first ten characters. |
| Dates.TimeRoundTrip | conference.py:381-382 | A time written as `HH:MM` parses back to the same minute of the day. |
| Sessions.SpeakerSessions | conference.py:391-395 | The speaker query holds exactly the stored sessions with that speaker at that conference, each as many times as it is stored, and no other session. |
| Sessions.CreateSession | conference.py:352-403 | The errors come in order: Unauthorized, missing name, unknown conference, caller not the organizer, start time that is not `HH:MM`, date that is not exactly `YYYY-MM-DD`. It succeeds if and only if none applies. The stored session carries the allocated key, the form's fields and the parsed time and date. The featured-speaker summary it queues is the intended one (see Findings). |
| Sessions.FeaturedSpeakerWhen | conference.py:391-401 | A speaker is featured if and only if they already have a session at that conference. The summary is "Speaker: X Sessions: " followed by their earlier sessions' names in storage order and then the new one's, joined by ", ". |
| Sessions.FeaturedSpeakerAsWrittenLags | conference.py:391-403 | Whenever the code as written produces a summary, the intended condition does too. |
| Sessions.SecondSessionFeatured | conference.py:391-403 | For a speaker's second session at a conference, the code as written features nobody. The intended behaviour features "Speaker: X Sessions: A, B". |
| Sessions.ThirdSessionFeatured | conference.py:391-403 | For a speaker's third session at a conference, the code as written features the speaker, but its summary lists only the two earlier sessions. The intended summary lists all three. |
| Sessions.SessionsByTypeTime | conference.py:546-552 | An unparsable start time is an error, and only then. Every returned key belongs to a session of another type and to a session that starts before the given time. The key of every session that meets both conditions is returned. |
| Sessions.SessionsByTypeTimeExact | conference.py:546-552 | With distinct session keys, the intersection is exactly the sessions of another type that start before the given time. |
| Announcements.NearlySoldOutRows | conference.py:623-626 | The query holds exactly the conferences with 0 < seatsAvailable <= 5, each as many times as it is stored. |
| Announcements.AnnouncementContents | conference.py:628-640 | The announcement is "" if and only if no conference is nearly sold out. Otherwise it starts with the fixed prefix and a space, and it names every such conference and no other. |
| Announcements.CacheAnnouncement | conference.py:621-642 | It returns the announcement. A non-empty announcement is stored under RECENT_ANNOUNCEMENTS; an empty one deletes that key. |
| Announcements.CacheThenGet | conference.py:635-652 | After caching, `getAnnouncement` reads back exactly the announcement just computed, whatever the cache held before. |
| Announcements.CacheOtherKeys | conference.py:635-640 | Caching the announcement leaves every other cache entry as it was. |

## Left out

- The datastore, memcache, the task queue and email are outside the model.
  - Lookups, queries and key allocation are parameters: a `Conference?` object, a sequence of
    sessions, a map from conference key to organizer, and a fresh key.
  - Nothing models `put()`, the transactions it lacks, or the race between concurrent registrations.
- Authentication (`endpoints.get_current_user`, `getUserId`) is an `Option<string>` user id.
  - Registration and the wishlist take the profile `_getProfileFromUser` returns. Its lookup and
    its creation on first use are not modelled, beyond the empty lists the `Profile` constructor
    starts with.
- Query execution and ordering by the datastore are outside the model.
  - `GetQuery` returns the query's sort keys and filters; it does not evaluate them.
  - The speaker query and the announcement query keep storage order. The datastore does not
    promise any order for them.
  - `getSessionsByTypeTime` returns the set of keys it intersects; the final `get_multi` is not
    modelled.
- Message copying is not modelled: `_copyConferenceToForm`, `_copySessionToForm`,
  `_copyProfileToForm`, the form-to-dict comprehension, and the echoed request that
  `_createConferenceObject` updates with the same defaults and seats.
  - Creation's result is the dict the `Conference` is built from.
  - An absent session text field is modelled as "".
- Conference creation requires the form's name, maxAttendees and date fields to hold the kinds
  the message declares. This is what `WellFormedForm` demands and what protorpc enforces.
- Creation with maxAttendees <= 0 keeps the caller's seatsAvailable. Seats can then exceed
  capacity. The model states this rather than a bound.
- `Dates.ParseDate` and `Dates.ParseTime` accept only the zero-padded forms.
  - Python's `strptime` also takes unpadded fields ("2015-6-1", "9:05").
  - Days are checked against 1..31 rather than against the length of each month.
- `Numerals.ParseInt` accepts an optional sign and ASCII digits. It does not model the
  surrounding whitespace or the non-ASCII digits of a unicode value that `int()` also accepts.
- Nothing models a session whose speaker is absent. The featured-speaker summary would raise
  a TypeError concatenating it.
- `filterPlayground` is a fixed demonstration query.
- `_getSessionQuery` has no caller in `conference.py`. It reads `filtr["vaule"]` and would raise KeyError. `FIELDS` holds no session
  fields, so its filters are rejected earlier anyway.
- The other session queries (by conference, type, speaker, date, duration) are single datastore
  queries with no logic of their own.
- Memcache eviction is not modelled. The cache is a map that keeps every entry until it is
  overwritten or deleted, so `Announcements.CacheThenGet` does not hold of real memcache, which can
  evict an entry or drop a `set` at any time.
- `getFeaturedSpeaker`, `_speakerToCache` and `_cacheSpeaker` only pass the summary through the
  task queue into memcache and read it back.
- `getConferencesCreated`, `getConference`, `queryConferences`, `getConferencesToAttend`,
  `getSessionInWishlist`, `_doProfile` and `saveProfile` are reads and copies with no rule of
  their own.
- `SESSION_DEFAULTS` is declared but never read.

## Findings

| source | as written | input that shows it | evidently intended | confidence | as-written member | corrected member |
|---|---|---|---|---|---|---|
| conference.py:391-403 | The speaker query runs before `Session(**data).put()`, and the summary needs more than one result. It therefore counts only sessions that already existed, so a speaker is featured only from their third session on, and the summary omits the session just created. | A conference with one session "A" by speaker "X"; create session "B" by "X". As written nothing is featured. | The speaker is featured once they have more than one session at the conference, the new one included. The summary is "Speaker: X Sessions: A, B". | medium; not executed | Sessions.FeaturedSpeakerAsWritten, Sessions.SecondSessionFeatured, Sessions.ThirdSessionFeatured | Sessions.FeaturedSpeaker, Sessions.FeaturedSpeakerWhen |
