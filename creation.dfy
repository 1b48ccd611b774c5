/** `_createConferenceObject`: the request's fields copied into a dict, missing ones filled from
    DEFAULTS, the start month derived from the start date, and the seat counter set to the
    capacity. The dict's named fields are a record; the fields the code never names (the
    description) stay in a map that is copied untouched. */
module Creation {
  import opened Base
  import opened Dates

  /** The values the form's fields hold. */
  datatype FieldValue = Null | Str(text: string) | Int(number: int) | StrList(items: seq<string>) | DateValue(date: Date)

  /** The request as it arrives: every ConferenceForm field the creation code names, and the rest. */
  datatype ConferenceForm = ConferenceForm(
    name: FieldValue, city: FieldValue, topics: FieldValue, startDate: FieldValue, endDate: FieldValue,
    month: FieldValue, maxAttendees: FieldValue, seatsAvailable: FieldValue, organizerUserId: FieldValue,
    websafeKey: FieldValue, organizerDisplayName: FieldValue, others: map<string, FieldValue>)

  /** The dict handed to the Conference constructor: the form without `websafeKey` and
      `organizerDisplayName`. */
  datatype ConferenceData = ConferenceData(
    name: FieldValue, city: FieldValue, topics: FieldValue, startDate: FieldValue, endDate: FieldValue,
    month: FieldValue, maxAttendees: FieldValue, seatsAvailable: FieldValue, organizerUserId: FieldValue,
    others: map<string, FieldValue>)

  /** The keys of DEFAULTS. */
  datatype DefaultField = DefaultCity | DefaultMaxAttendees | DefaultSeatsAvailable | DefaultTopics

  /** The DEFAULTS table. */
  function Default(f: DefaultField): FieldValue
  {
    match f
    case DefaultCity => Str("Default City")
    case DefaultMaxAttendees => Int(0)
    case DefaultSeatsAvailable => Int(0)
    case DefaultTopics => StrList(["Default", "Topic"])
  }

  /** The keys of DEFAULTS in the order the defaults loop visits them. */
  const DefaultKeys: seq<DefaultField> := [DefaultCity, DefaultMaxAttendees, DefaultSeatsAvailable, DefaultTopics]

  /** `data[df]` */
  function Get(data: ConferenceData, f: DefaultField): FieldValue
  {
    match f
    case DefaultCity => data.city
    case DefaultMaxAttendees => data.maxAttendees
    case DefaultSeatsAvailable => data.seatsAvailable
    case DefaultTopics => data.topics
  }

  /** `data[df] = v` */
  function Set(data: ConferenceData, f: DefaultField, v: FieldValue): (r: ConferenceData)
    ensures Get(r, f) == v
    ensures forall g :: g != f ==> Get(r, g) == Get(data, g)
  {
    match f
    case DefaultCity => data.(city := v)
    case DefaultMaxAttendees => data.(maxAttendees := v)
    case DefaultSeatsAvailable => data.(seatsAvailable := v)
    case DefaultTopics => data.(topics := v)
  }

  /** `value in (None, [])`: an empty string and a zero count are not missing. */
  predicate IsMissing(v: FieldValue)
  {
    v == Null || v == StrList([])
  }

  /** Python truthiness of a text field: present and non-empty. */
  predicate IsSet(v: FieldValue)
  {
    v.Str? && v.text != ""
  }

  /** A form as the message layer delivers it: each field the code computes with has its declared kind. */
  predicate WellFormedForm(form: ConferenceForm)
  {
    && (form.name.Null? || form.name.Str?)
    && (form.maxAttendees.Null? || form.maxAttendees.Int?)
    && (form.startDate.Null? || form.startDate.Str?)
    && (form.endDate.Null? || form.endDate.Str?)
  }

  /** `{field.name: getattr(request, field.name) ...}` followed by the two `del`s. */
  function Copy(form: ConferenceForm): (data: ConferenceData)
  {
    ConferenceData(form.name, form.city, form.topics, form.startDate, form.endDate, form.month,
                   form.maxAttendees, form.seatsAvailable, form.organizerUserId, form.others)
  }

  /** The value a field with a default ends up with. */
  function Defaulted(v: FieldValue, f: DefaultField): (r: FieldValue)
    ensures !IsMissing(r)
    ensures r == v || r == Default(f)
  {
    if IsMissing(v) then Default(f) else v
  }

  /** The defaults loop: every DEFAULTS field that is None or [] takes its default; nothing else
      changes. */
  method ApplyDefaults(data: ConferenceData) returns (out: ConferenceData)
    ensures forall f :: Get(out, f) == Defaulted(Get(data, f), f)
    ensures out.name == data.name && out.startDate == data.startDate && out.endDate == data.endDate
    ensures out.month == data.month && out.organizerUserId == data.organizerUserId && out.others == data.others
  {
    out := data;
    var i := 0;
    while i < |DefaultKeys|
      invariant 0 <= i <= |DefaultKeys|
      invariant forall f :: Get(out, f) == if f in DefaultKeys[..i] then Defaulted(Get(data, f), f) else Get(data, f)
      invariant out.name == data.name && out.startDate == data.startDate && out.endDate == data.endDate
      invariant out.month == data.month && out.organizerUserId == data.organizerUserId && out.others == data.others
    {
      var df := DefaultKeys[i];
      assert DefaultKeys[..i + 1] == DefaultKeys[..i] + [df];
      if IsMissing(Get(out, df)) {
        out := Set(out, df, Default(df));
      }
      i := i + 1;
    }
    assert DefaultKeys[..i] == DefaultKeys;
  }

  /** A date field that is unset, or set to text whose first ten characters are a date. */
  predicate DateParses(v: FieldValue)
  {
    !IsSet(v) || ParseDatePrefix(v.text).Some?
  }

  /** The stored date field: the parsed date when the text is set, the value unchanged otherwise. */
  function StoredDate(v: FieldValue): FieldValue
    requires DateParses(v)
  {
    if IsSet(v) then DateValue(ParseDatePrefix(v.text).value) else v
  }

  /** The month stored with a conference: its start date's, or 0 when it has none. */
  function StartMonth(startDate: FieldValue): nat
    requires DateParses(startDate)
  {
    if IsSet(startDate) then ParseDatePrefix(startDate.text).value.month else 0
  }

  /** What creation raises: UnauthorizedException, BadRequestException for a missing name, and the
      ValueError of `strptime` on a malformed date. */
  datatype CreateError = Unauthorized | NameRequired | InvalidDate(text: string)

  /** `data` is the conference the user `userId` creates from `form`. */
  ghost predicate CreatedFrom(form: ConferenceForm, userId: string, data: ConferenceData)
    requires DateParses(form.startDate) && DateParses(form.endDate)
  {
    // copied unchanged
    && data.name == form.name && data.others == form.others
    // defaults
    && data.city == Defaulted(form.city, DefaultCity)
    && data.topics == Defaulted(form.topics, DefaultTopics)
    && data.maxAttendees == Defaulted(form.maxAttendees, DefaultMaxAttendees)
    // seats start at the capacity when it is positive
    && data.maxAttendees.Int?
    && data.seatsAvailable
       == (if data.maxAttendees.number > 0 then data.maxAttendees else Defaulted(form.seatsAvailable, DefaultSeatsAvailable))
    // dates parsed, month derived, organizer recorded
    && data.month == Int(StartMonth(form.startDate))
    && data.startDate == StoredDate(form.startDate)
    && data.endDate == StoredDate(form.endDate)
    && data.organizerUserId == Str(userId)
  }

  /** `_createConferenceObject` up to the datastore write: the checks, the defaults, the dates, the
      seats and the organizer. */
  method CreateConferenceData(form: ConferenceForm, userId: Option<string>) returns (r: Result<ConferenceData, CreateError>)
    requires WellFormedForm(form)
    ensures userId.None? ==> r == Err(Unauthorized)
    ensures userId.Some? && !IsSet(form.name) ==> r == Err(NameRequired)
    ensures userId.Some? && IsSet(form.name) && !DateParses(form.startDate) ==>
      r == Err(InvalidDate(form.startDate.text))
    ensures userId.Some? && IsSet(form.name) && DateParses(form.startDate) && !DateParses(form.endDate) ==>
      r == Err(InvalidDate(form.endDate.text))
    ensures r.Ok? <==> userId.Some? && IsSet(form.name) && DateParses(form.startDate) && DateParses(form.endDate)
    ensures r.Ok? ==> CreatedFrom(form, userId.value, r.value)
    ensures r.Ok? ==> r.value.month.Int? && 0 <= r.value.month.number <= 12
    ensures r.Ok? && r.value.maxAttendees.number > 0 ==> r.value.seatsAvailable == r.value.maxAttendees
  {
    if userId.None? {
      return Err(Unauthorized);
    }
    if !IsSet(form.name) {
      return Err(NameRequired);
    }
    var data := Copy(form);
    data := ApplyDefaults(data);
    assert Get(data, DefaultMaxAttendees) == data.maxAttendees;
    assert Get(data, DefaultSeatsAvailable) == data.seatsAvailable;
    assert Get(data, DefaultCity) == data.city && Get(data, DefaultTopics) == data.topics;
    if IsSet(data.startDate) {
      var start := ParseDatePrefix(data.startDate.text);
      if start.None? {
        return Err(InvalidDate(data.startDate.text));
      }
      data := data.(startDate := DateValue(start.value), month := Int(start.value.month));
    } else {
      data := data.(month := Int(0));
    }
    if IsSet(data.endDate) {
      var end := ParseDatePrefix(data.endDate.text);
      if end.None? {
        return Err(InvalidDate(data.endDate.text));
      }
      data := data.(endDate := DateValue(end.value));
    }
    if data.maxAttendees.number > 0 {
      data := data.(seatsAvailable := data.maxAttendees);
    }
    data := data.(organizerUserId := Str(userId.value));
    return Ok(data);
  }
}
