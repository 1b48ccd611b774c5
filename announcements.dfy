/** Announcements: `_cacheAnnouncement` builds the "nearly sold out" text from the conferences
    with a few seats left and stores it in, or deletes it from, the cache; `getAnnouncement` reads
    it back. The cache is a map from key to text. */
module Announcements {
  import opened Lists

  const AnnouncementsKey: string := "RECENT_ANNOUNCEMENTS"

  const AnnouncementPrefix: string := "Last chance to attend! The following conferences are nearly sold out:"

  /** The projection the announcement query fetches. */
  datatype ConferenceRow = ConferenceRow(name: string, seatsAvailable: int)

  /** `seatsAvailable <= 5 and seatsAvailable > 0` */
  predicate NearlySoldOut(c: ConferenceRow)
  {
    0 < c.seatsAvailable <= 5
  }

  /** The query's result, kept in storage order. */
  function NearlySoldOutRows(confs: seq<ConferenceRow>): (r: seq<ConferenceRow>)
    ensures |r| <= |confs|
    ensures forall c :: c in r <==> c in confs && NearlySoldOut(c)
    ensures forall c :: multiset(r)[c] == if NearlySoldOut(c) then multiset(confs)[c] else 0
  {
    if |confs| == 0 then []
    else
      var rest := NearlySoldOutRows(confs[1..]);
      assert confs == [confs[0]] + confs[1..];
      assert multiset(confs) == multiset{confs[0]} + multiset(confs[1..]);
      if NearlySoldOut(confs[0]) then [confs[0]] + rest else rest
  }

  /** The conference names, in order. */
  function RowNames(rows: seq<ConferenceRow>): (r: seq<string>)
    ensures |r| == |rows| && forall i :: 0 <= i < |r| ==> r[i] == rows[i].name
  {
    if |rows| == 0 then [] else [rows[0].name] + RowNames(rows[1..])
  }

  /** The announcement text: the prefix, a space and the names joined by ", ", or "" when no
      conference is nearly sold out. */
  function Announcement(confs: seq<ConferenceRow>): string
  {
    var rows := NearlySoldOutRows(confs);
    if |rows| > 0 then AnnouncementPrefix + " " + Join(RowNames(rows), ", ") else ""
  }

  /** `_cacheAnnouncement`: the announcement it returns and the cache it leaves behind. */
  function CacheAnnouncement(confs: seq<ConferenceRow>, cache: map<string, string>): (r: (string, map<string, string>))
    ensures r.0 == Announcement(confs)
    ensures r.0 != "" ==> r.1 == cache[AnnouncementsKey := r.0]
    ensures r.0 == "" ==> r.1 == cache - {AnnouncementsKey}
  {
    var announcement := Announcement(confs);
    if announcement != "" then (announcement, cache[AnnouncementsKey := announcement])
    else (announcement, cache - {AnnouncementsKey})
  }

  /** `getAnnouncement`: the cached text, or "" when there is none. */
  function GetAnnouncement(cache: map<string, string>): string
  {
    if AnnouncementsKey in cache then cache[AnnouncementsKey] else ""
  }

  /** The announcement is empty exactly when no conference has between one and five seats left;
      otherwise it starts with the prefix and names every such conference. */
  lemma AnnouncementContents(confs: seq<ConferenceRow>)
    ensures Announcement(confs) == "" <==> forall c :: c in confs ==> !NearlySoldOut(c)
    ensures Announcement(confs) != "" ==>
      Announcement(confs)[..|AnnouncementPrefix| + 1] == AnnouncementPrefix + " "
    ensures forall c :: c in confs && NearlySoldOut(c) ==> c.name in RowNames(NearlySoldOutRows(confs))
    ensures forall n :: n in RowNames(NearlySoldOutRows(confs)) ==>
      exists c :: c in confs && NearlySoldOut(c) && c.name == n
  {
    var rows := NearlySoldOutRows(confs);
    var names := RowNames(rows);
    if |rows| == 0 {
      forall c | c in confs ensures !NearlySoldOut(c) {
        assert c !in rows;
      }
    } else {
      assert rows[0] in rows;
      var text := AnnouncementPrefix + " " + Join(names, ", ");
      assert text[..|AnnouncementPrefix| + 1] == AnnouncementPrefix + " ";
    }
    forall c | c in confs && NearlySoldOut(c) ensures c.name in names {
      var i :| 0 <= i < |rows| && rows[i] == c;
      assert names[i] == c.name;
    }
    forall n | n in names ensures exists c :: c in confs && NearlySoldOut(c) && c.name == n {
      var i :| 0 <= i < |names| && names[i] == n;
      assert rows[i] in rows;
    }
  }

  /** What `getAnnouncement` reads after `_cacheAnnouncement` is the announcement it computed,
      whatever the cache held before. */
  lemma CacheThenGet(confs: seq<ConferenceRow>, cache: map<string, string>)
    ensures GetAnnouncement(CacheAnnouncement(confs, cache).1) == Announcement(confs)
  {
  }

  /** Caching the announcement touches no other cache entry. */
  lemma CacheOtherKeys(confs: seq<ConferenceRow>, cache: map<string, string>, key: string)
    requires key != AnnouncementsKey
    ensures key in CacheAnnouncement(confs, cache).1 <==> key in cache
    ensures key in cache ==> CacheAnnouncement(confs, cache).1[key] == cache[key]
  {
  }
}
