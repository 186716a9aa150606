/** The digest line of one event (describe_event), and a reader that recovers
    from a line everything the line shows about its event. */
module Render {
  import opened Wrappers
  import opened Text
  import opened Clock
  import opened Sky

  /** The event involves at least as many objects as its kind's line reads;
      otherwise the source's objects[i] raises an index error. */
  predicate Renderable(e: Event) {
    Arity(e.kind) <= |e.objects|
  }

  predicate IsEquinox(s: SeasonType) {
    s == MarchEquinox || s == SeptemberEquinox
  }

  /** The opening words of a season-change line. */
  function EquinoxWord(equinox: bool): (word: string) {
    if equinox then "L'équinoxe" else "Le solstice"
  }

  function SeasonWord(s: SeasonType): (word: string) {
    EquinoxWord(IsEquinox(s))
  }

  function EclipseWord(t: EclipseType): (word: string) {
    match t
    case Partial => "partielle"
    case Penumbral => "pénombrale"
    case Total => "totale"
  }

  /** The digest line of a renderable event. */
  function Line(e: Event): (line: string)
    requires Renderable(e)
  {
    var hour := FormatTime(e.start);
    match e.kind
    case Opposition =>
      ":star: **" + hour + " :** " + ObjectName(e.objects[0]) + " arrive à l'opposition"
    case Conjunction =>
      ":star: **" + hour + " :** " + ObjectName(e.objects[0]) + " et " + ObjectName(e.objects[1]) + " sont en conjonction"
    case Occultation =>
      ":star: **" + hour + " :** " + ObjectName(e.objects[0]) + " occulte " + ObjectName(e.objects[1])
    case MaximalElongation =>
      ":star: **" + hour + " :** L'élongation de " + ObjectName(e.objects[0]) + " est maximale"
    case Perigee =>
      ":star: **" + hour + " :** " + ObjectName(e.objects[0]) + " arrive à son périgée"
    case Apogee =>
      ":star: **" + hour + " :** " + ObjectName(e.objects[0]) + " arrive à son apogée"
    case SeasonChange(season) =>
      ":star: " + SeasonWord(season) + " a lieu a " + hour + " aujourd'hui"
    case LunarEclipse(eclipse, maximum) =>
      ":star: **" + hour + ":** éclipse " + EclipseWord(eclipse) + " de Lune (atteignant son maximum à " + FormatTime(maximum) + ")"
  }

  datatype RenderError = IndexOutOfRange

  /** describe_event: total over the eight kinds; it fails only when the event
      lacks an object its line reads. */
  function Describe(e: Event): (r: Result<string, RenderError>)
    ensures r.Success? <==> Renderable(e)
    ensures r.Success? ==> r.value == Line(e)
  {
    if Renderable(e) then Success(Line(e)) else Failure(IndexOutOfRange)
  }

  /** What a line shows of its event: the kind, the start time, the objects
      the line names, and the details it prints. */
  datatype Reading =
    | OppositionOf(at: Time, body: ObjectId)
    | ConjunctionOf(at: Time, first: ObjectId, second: ObjectId)
    | OccultationOf(at: Time, first: ObjectId, second: ObjectId)
    | ElongationOf(at: Time, body: ObjectId)
    | PerigeeOf(at: Time, body: ObjectId)
    | ApogeeOf(at: Time, body: ObjectId)
    | SeasonOf(at: Time, equinox: bool)
    | EclipseOf(at: Time, eclipse: EclipseType, maximum: Time)

  function ReadingOf(e: Event): (r: Reading)
    requires Renderable(e)
  {
    match e.kind
    case Opposition => OppositionOf(e.start, e.objects[0])
    case Conjunction => ConjunctionOf(e.start, e.objects[0], e.objects[1])
    case Occultation => OccultationOf(e.start, e.objects[0], e.objects[1])
    case MaximalElongation => ElongationOf(e.start, e.objects[0])
    case Perigee => PerigeeOf(e.start, e.objects[0])
    case Apogee => ApogeeOf(e.start, e.objects[0])
    case SeasonChange(season) => SeasonOf(e.start, IsEquinox(season))
    case LunarEclipse(eclipse, maximum) => EclipseOf(e.start, eclipse, maximum)
  }

  /** A time followed by exactly `suffix`. */
  function ReadTimeThen(s: string, suffix: string): (r: Option<Time>)
    ensures r.Some? ==> s == FormatTime(r.value) + suffix
  {
    if |s| == 5 + |suffix| && s[5..] == suffix then
      match ParseTime(s[..5])
      case Some(t) => assert s == s[..5] + s[5..]; Some(t)
      case None => None
    else None
  }

  function ReadEclipseWord(s: string): (r: Option<(EclipseType, string)>)
    ensures r.Some? ==> s == EclipseWord(r.value.0) + r.value.1
  {
    match Strip(s, "partielle")
    case Some(rest) => Some((Partial, rest))
    case None =>
      match Strip(s, "pénombrale")
      case Some(rest) => Some((Penumbral, rest))
      case None =>
        match Strip(s, "totale")
        case Some(rest) => Some((Total, rest))
        case None => None
  }

  function ReadEclipse(at: Time, s: string): (r: Option<Reading>) {
    match ReadEclipseWord(s)
    case None => None
    case Some((eclipse, tail)) =>
      match Strip(tail, " de Lune (atteignant son maximum à ")
      case None => None
      case Some(rest) =>
        match ReadTimeThen(rest, ")")
        case Some(maximum) => Some(EclipseOf(at, eclipse, maximum))
        case None => None
  }

  function ReadSeasonWord(s: string): (r: Option<(bool, string)>)
    ensures r.Some? ==> s == EquinoxWord(r.value.0) + r.value.1
  {
    match Strip(s, "L'équinoxe")
    case Some(rest) => Some((true, rest))
    case None =>
      match Strip(s, "Le solstice")
      case Some(rest) => Some((false, rest))
      case None => None
  }

  function ReadSeason(s: string): (r: Option<Reading>) {
    match ReadSeasonWord(s)
    case None => None
    case Some((equinox, tail)) =>
      match Strip(tail, " a lieu a ")
      case None => None
      case Some(rest) =>
        match ReadTimeThen(rest, " aujourd'hui")
        case Some(at) => Some(SeasonOf(at, equinox))
        case None => None
  }

  /** The words after the first object name of a line. */
  function ReadNamedTail(at: Time, o: ObjectId, tail: string): (r: Option<Reading>)
    ensures r.Some? ==> r.value.at == at
    ensures r.Some? ==> r.value.OppositionOf? || r.value.PerigeeOf? || r.value.ApogeeOf?
                        || r.value.ConjunctionOf? || r.value.OccultationOf?
    ensures r.Some? && (r.value.OppositionOf? || r.value.PerigeeOf? || r.value.ApogeeOf?) ==> r.value.body == o
    ensures r.Some? && (r.value.ConjunctionOf? || r.value.OccultationOf?) ==> r.value.first == o
  {
    if tail == " arrive à l'opposition" then Some(OppositionOf(at, o))
    else if tail == " arrive à son périgée" then Some(PerigeeOf(at, o))
    else if tail == " arrive à son apogée" then Some(ApogeeOf(at, o))
    else
      match Strip(tail, " et ")
      case Some(second) =>
        (match ReadName(second)
         case Some((o2, tail2)) =>
           if tail2 == " sont en conjonction" then Some(ConjunctionOf(at, o, o2)) else None
         case None => None)
      case None =>
        match Strip(tail, " occulte ")
        case Some(second) =>
          (match ObjectOfName(second)
           case Some(o2) => Some(OccultationOf(at, o, o2))
           case None => None)
        case None => None
  }

  /** The text after the " :** " of a line. */
  function ReadBody(at: Time, body: string): (r: Option<Reading>) {
    match Strip(body, "L'élongation de ")
    case Some(named) =>
      (match ReadName(named)
       case Some((o, tail)) => if tail == " est maximale" then Some(ElongationOf(at, o)) else None
       case None => None)
    case None =>
      match ReadName(body)
      case None => None
      case Some((o, tail)) => ReadNamedTail(at, o, tail)
  }

  /** The text after the start time of a line. */
  function ReadStamped(at: Time, after: string): (r: Option<Reading>) {
    match Strip(after, " :** ")
    case Some(body) => ReadBody(at, body)
    case None =>
      match Strip(after, ":** éclipse ")
      case Some(details) => ReadEclipse(at, details)
      case None => None
  }

  /** Reads a digest line back into what it shows. */
  function ReadLine(line: string): (r: Option<Reading>) {
    match Strip(line, ":star: ")
    case None => None
    case Some(rest) =>
      match Strip(rest, "**")
      case None => ReadSeason(rest)
      case Some(stamped) =>
        if |stamped| < 5 then None
        else
          match ParseTime(stamped[..5])
          case None => None
          case Some(at) => ReadStamped(at, stamped[5..])
  }

  // Round trips: each reader applied to the text its template builds. The
  // templates are regrouped with Assoc one step at a time, which keeps the
  // solver from comparing the long literals element by element.

  lemma ReadTimeThenOf(t: Time, suffix: string)
    ensures ReadTimeThen(FormatTime(t) + suffix, suffix) == Some(t)
  {
    var s := FormatTime(t) + suffix;
    assert s[..5] == FormatTime(t) && s[5..] == suffix;
    ParseFormat(t);
  }

  lemma ReadEclipseWordOf(ty: EclipseType, rest: string)
    ensures ReadEclipseWord(EclipseWord(ty) + rest) == Some((ty, rest))
  {
    var s := EclipseWord(ty) + rest;
    StripConcat(EclipseWord(ty), rest);
    match ty
    case Partial =>
    case Penumbral =>
      assert s[1] == 'é';
    case Total =>
      assert s[0] == 't';
  }

  lemma ReadEclipseOf(at: Time, ty: EclipseType, maximum: Time)
    ensures ReadEclipse(at, EclipseWord(ty) + " de Lune (atteignant son maximum à " + FormatTime(maximum) + ")")
         == Some(EclipseOf(at, ty, maximum))
  {
    var w, d, m := EclipseWord(ty), " de Lune (atteignant son maximum à ", FormatTime(maximum);
    Assoc(w, d, m); Assoc(w, d + m, ")"); Assoc(d, m, ")");
    ReadEclipseWordOf(ty, d + (m + ")"));
    StripConcat(d, m + ")");
    ReadTimeThenOf(maximum, ")");
  }

  lemma ReadSeasonWordOf(equinox: bool, rest: string)
    ensures ReadSeasonWord(EquinoxWord(equinox) + rest) == Some((equinox, rest))
  {
    StripConcat(EquinoxWord(equinox), rest);
    if !equinox {
      assert (EquinoxWord(equinox) + rest)[1] == 'e';
    }
  }

  lemma ReadSeasonOf(season: SeasonType, at: Time)
    ensures ReadSeason(SeasonWord(season) + " a lieu a " + FormatTime(at) + " aujourd'hui")
         == Some(SeasonOf(at, IsEquinox(season)))
  {
    var w, d, t := SeasonWord(season), " a lieu a ", FormatTime(at);
    Assoc(w, d, t); Assoc(w, d + t, " aujourd'hui"); Assoc(d, t, " aujourd'hui");
    ReadSeasonWordOf(IsEquinox(season), d + (t + " aujourd'hui"));
    StripConcat(d, t + " aujourd'hui");
    ReadTimeThenOf(at, " aujourd'hui");
  }

  lemma NotArrival(tail: string)
    requires |tail| > 1 && tail[1] != 'a'
    ensures tail != " arrive à l'opposition"
    ensures tail != " arrive à son périgée"
    ensures tail != " arrive à son apogée"
  {
  }

  lemma ReadConjunctionTailOf(at: Time, o: ObjectId, o2: ObjectId)
    ensures ReadNamedTail(at, o, " et " + ObjectName(o2) + " sont en conjonction") == Some(ConjunctionOf(at, o, o2))
  {
    var second := ObjectName(o2) + " sont en conjonction";
    Assoc(" et ", ObjectName(o2), " sont en conjonction");
    var tail := " et " + second;
    assert tail[1] == 'e';
    NotArrival(tail);
    StripConcat(" et ", second);
    ReadNameOf(o2, " sont en conjonction");
  }

  lemma ReadOccultationTailOf(at: Time, o: ObjectId, o2: ObjectId)
    ensures ReadNamedTail(at, o, " occulte " + ObjectName(o2)) == Some(OccultationOf(at, o, o2))
  {
    var tail := " occulte " + ObjectName(o2);
    assert tail[1] == 'o';
    NotArrival(tail);
    assert Strip(tail, " et ").None? by {
      assert " et "[1] != tail[1];
    }
    StripConcat(" occulte ", ObjectName(o2));
    ObjectOfNameInverse(o2);
  }

  /** A body that starts with an object name is read by its tail. */
  lemma ReadNamedBodyOf(at: Time, o: ObjectId, tail: string)
    ensures ReadBody(at, ObjectName(o) + tail) == ReadNamedTail(at, o, tail)
  {
    var body := ObjectName(o) + tail;
    NameShape(o);
    assert body[1] == ObjectName(o)[1];
    assert Strip(body, "L'élongation de ").None?;
    ReadNameOf(o, tail);
  }

  lemma ReadElongationOf(at: Time, o: ObjectId)
    ensures ReadBody(at, "L'élongation de " + ObjectName(o) + " est maximale") == Some(ElongationOf(at, o))
  {
    var named := ObjectName(o) + " est maximale";
    assert "L'élongation de " + ObjectName(o) + " est maximale" == "L'élongation de " + named;
    StripConcat("L'élongation de ", named);
    ReadNameOf(o, " est maximale");
  }

  /** A line with a starred start time is read by the text after the time. */
  lemma ReadLineStamped(at: Time, after: string)
    ensures ReadLine(":star: **" + FormatTime(at) + after) == ReadStamped(at, after)
  {
    var t := FormatTime(at);
    assert ":star: **" == ":star: " + "**";
    Assoc(":star: ", "**", t); Assoc(":star: ", "**" + t, after); Assoc("**", t, after);
    StripConcat(":star: ", "**" + (t + after));
    StripConcat("**", t + after);
    assert (t + after)[..5] == t && (t + after)[5..] == after;
    ParseFormat(at);
  }

  lemma ReadStampedBody(at: Time, body: string)
    ensures ReadStamped(at, " :** " + body) == ReadBody(at, body)
  {
    StripConcat(" :** ", body);
  }

  lemma ReadStampedEclipse(at: Time, details: string)
    ensures ReadStamped(at, ":** éclipse " + details) == ReadEclipse(at, details)
  {
    assert (":** éclipse " + details)[0] == ':';
    StripConcat(":** éclipse ", details);
  }

  lemma ReadLineSeason(season: SeasonType, at: Time)
    ensures ReadLine(":star: " + SeasonWord(season) + " a lieu a " + FormatTime(at) + " aujourd'hui")
         == Some(SeasonOf(at, IsEquinox(season)))
  {
    var b, w, d, t, a := ":star: ", SeasonWord(season), " a lieu a ", FormatTime(at), " aujourd'hui";
    Assoc(b, w, d); Assoc(b, w + d, t); Assoc(b, w + d + t, a);
    StripConcat(b, w + d + t + a);
    assert (w + d + t + a)[0] == 'L';
    ReadSeasonOf(season, at);
  }

  /** A line whose body starts with an object name is read by the words after the name. */
  lemma ReadLineNamed(at: Time, o: ObjectId, tail: string)
    ensures ReadLine(":star: **" + FormatTime(at) + " :** " + ObjectName(o) + tail) == ReadNamedTail(at, o, tail)
  {
    var x, n := ":star: **" + FormatTime(at), ObjectName(o);
    Assoc(x, " :** ", n); Assoc(x, " :** " + n, tail); Assoc(" :** ", n, tail);
    ReadLineStamped(at, " :** " + (n + tail));
    ReadStampedBody(at, n + tail);
    ReadNamedBodyOf(at, o, tail);
  }

  lemma ReadLineElongation(at: Time, o: ObjectId)
    ensures ReadLine(":star: **" + FormatTime(at) + " :** L'élongation de " + ObjectName(o) + " est maximale")
         == Some(ElongationOf(at, o))
  {
    var x, a, b, n, t := ":star: **" + FormatTime(at), " :** ", "L'élongation de ", ObjectName(o), " est maximale";
    var body := b + n + t;
    assert " :** L'élongation de " == a + b;
    Assoc(x, a + b, n); Assoc(x, a + b + n, t);
    Assoc(a, b, n); Assoc(a, b + n, t);
    ReadLineStamped(at, " :** " + body);
    ReadStampedBody(at, body);
    ReadElongationOf(at, o);
  }

  lemma ReadLineEclipse(at: Time, ty: EclipseType, maximum: Time)
    ensures ReadLine(":star: **" + FormatTime(at) + ":** éclipse " + EclipseWord(ty)
                     + " de Lune (atteignant son maximum à " + FormatTime(maximum) + ")")
         == Some(EclipseOf(at, ty, maximum))
  {
    var details := EclipseWord(ty) + " de Lune (atteignant son maximum à " + FormatTime(maximum) + ")";
    var x, a := ":star: **" + FormatTime(at), ":** éclipse ";
    var w, d, m := EclipseWord(ty), " de Lune (atteignant son maximum à ", FormatTime(maximum);
    Assoc(x, a, w); Assoc(x, a + w, d); Assoc(x, a + w + d, m); Assoc(x, a + w + d + m, ")");
    Assoc(a, w, d); Assoc(a, w + d, m); Assoc(a, w + d + m, ")");
    ReadLineStamped(at, ":** éclipse " + details);
    ReadStampedEclipse(at, details);
    ReadEclipseOf(at, ty, maximum);
  }

  /** The round trip for the kinds whose line names one object followed by "arrive à ...". */
  lemma ReadLineOfArrival(e: Event)
    requires Renderable(e)
    requires e.kind in {Opposition, Perigee, Apogee}
    ensures ReadLine(Line(e)) == Some(ReadingOf(e))
  {
    var tail :=
      if e.kind == Opposition then " arrive à l'opposition"
      else if e.kind == Perigee then " arrive à son périgée"
      else " arrive à son apogée";
    ReadLineNamed(e.start, e.objects[0], tail);
  }

  /** The round trip for the kinds whose line names two objects. */
  lemma ReadLineOfConjunction(e: Event)
    requires Renderable(e) && e.kind == Conjunction
    ensures ReadLine(Line(e)) == Some(ReadingOf(e))
  {
    var at, o, o2 := e.start, e.objects[0], e.objects[1];
    var x := ":star: **" + FormatTime(at) + " :** " + ObjectName(o);
    var tail := " et " + ObjectName(o2) + " sont en conjonction";
    ReadLineNamed(at, o, tail);
    Assoc(x, " et ", ObjectName(o2));
    Assoc(x, " et " + ObjectName(o2), " sont en conjonction");
    ReadConjunctionTailOf(at, o, o2);
  }

  lemma ReadLineOfOccultation(e: Event)
    requires Renderable(e) && e.kind == Occultation
    ensures ReadLine(Line(e)) == Some(ReadingOf(e))
  {
    var at, o, o2 := e.start, e.objects[0], e.objects[1];
    var x := ":star: **" + FormatTime(at) + " :** " + ObjectName(o);
    var tail := " occulte " + ObjectName(o2);
    ReadLineNamed(at, o, tail);
    Assoc(x, " occulte ", ObjectName(o2));
    ReadOccultationTailOf(at, o, o2);
  }

  /** Reading a rendered line gives back what the line shows of its event. */
  lemma ReadLineOf(e: Event)
    requires Renderable(e)
    ensures ReadLine(Line(e)) == Some(ReadingOf(e))
  {
    match e.kind {
      case MaximalElongation =>
        ReadLineElongation(e.start, e.objects[0]);
      case SeasonChange(season) =>
        ReadLineSeason(season, e.start);
      case LunarEclipse(eclipse, maximum) =>
        ReadLineEclipse(e.start, eclipse, maximum);
      case Conjunction =>
        ReadLineOfConjunction(e);
      case Occultation =>
        ReadLineOfOccultation(e);
      case _ =>
        ReadLineOfArrival(e);
    }
  }

  /** `sub` appears in `s` starting at index `i`. */
  predicate OccursAt(s: string, sub: string, i: nat) {
    i + |sub| <= |s| && forall k :: 0 <= k < |sub| ==> s[i + k] == sub[k]
  }

  /** Two events render the same line exactly when the line shows the same
      kind, time, named objects and details for both. */
  lemma LineInjective(e1: Event, e2: Event)
    requires Renderable(e1) && Renderable(e2)
    ensures Line(e1) == Line(e2) <==> ReadingOf(e1) == ReadingOf(e2)
  {
    ReadLineOf(e1);
    ReadLineOf(e2);
    if ReadingOf(e1) == ReadingOf(e2) {
      LineOfReading(e1, e2);
    }
  }

  /** The line depends on nothing but what it shows. */
  lemma LineOfReading(e1: Event, e2: Event)
    requires Renderable(e1) && Renderable(e2)
    requires ReadingOf(e1) == ReadingOf(e2)
    ensures Line(e1) == Line(e2)
  {
    if e1.kind.SeasonChange? {
      assert SeasonWord(e1.kind.season) == SeasonWord(e2.kind.season);
    }
  }

  /** Only the first Arity(kind) objects reach the line: one for opposition,
      elongation, perigee and apogee, two for conjunction and occultation, none
      for season changes and lunar eclipses. */
  lemma LineReadsOnlyItsObjects(e: Event, others: seq<ObjectId>)
    requires Renderable(e)
    requires Arity(e.kind) <= |others| && others[..Arity(e.kind)] == e.objects[..Arity(e.kind)]
    ensures Renderable(e.(objects := others))
    ensures Line(e.(objects := others)) == Line(e)
  {
    var e2 := e.(objects := others);
    if Arity(e.kind) >= 1 {
      assert others[0] == others[..Arity(e.kind)][0];
    }
    if Arity(e.kind) == 2 {
      assert others[1] == others[..Arity(e.kind)][1];
    }
    assert ReadingOf(e2) == ReadingOf(e);
    LineOfReading(e2, e);
  }

  lemma OccursShift(p: string, s: string, sub: string, i: nat)
    requires OccursAt(s, sub, i)
    ensures OccursAt(p + s, sub, |p| + i)
  {
  }

  lemma PrefixOccurs(p: string, s: string)
    ensures OccursAt(p + s, p, 0)
  {
  }

  /** Where the text after " :** " shows the objects of a reading. */
  predicate BodyShows(body: string, r: Reading) {
    match r
    case OppositionOf(_, o) => OccursAt(body, ObjectName(o), 0)
    case PerigeeOf(_, o) => OccursAt(body, ObjectName(o), 0)
    case ApogeeOf(_, o) => OccursAt(body, ObjectName(o), 0)
    case ElongationOf(_, o) => OccursAt(body, "L'élongation de ", 0) && OccursAt(body, ObjectName(o), 16)
    case ConjunctionOf(_, o, o2) =>
      OccursAt(body, ObjectName(o), 0) && OccursAt(body, " et ", |ObjectName(o)|)
      && OccursAt(body, ObjectName(o2), |ObjectName(o)| + 4)
    case OccultationOf(_, o, o2) =>
      OccursAt(body, ObjectName(o), 0) && OccursAt(body, " occulte ", |ObjectName(o)|)
      && OccursAt(body, ObjectName(o2), |ObjectName(o)| + 9)
    case _ => false
  }

  /** Where the text after the start time shows the rest of a reading
      (for the kinds whose line shows the start time first). */
  predicate StampShows(after: string, r: Reading) {
    if r.EclipseOf? then
      OccursAt(after, ":** éclipse ", 0) && OccursAt(after, EclipseWord(r.eclipse), 12)
      && |after| >= 18 && OccursAt(after, FormatTime(r.maximum), |after| - 6) && after[|after| - 1] == ')'
    else
      OccursAt(after, " :** ", 0) && BodyShows(after[5..], r)
  }

  /** Where the text after the bullet shows a reading. */
  predicate BulletShows(rest: string, r: Reading) {
    if r.SeasonOf? then
      OccursAt(rest, EquinoxWord(r.equinox), 0) && OccursAt(rest, " a lieu a ", |EquinoxWord(r.equinox)|)
      && OccursAt(rest, FormatTime(r.at), |EquinoxWord(r.equinox)| + 10)
    else
      OccursAt(rest, "**", 0) && OccursAt(rest, FormatTime(r.at), 2) && |rest| >= 7 && StampShows(rest[7..], r)
  }

  /** Where a line shows each part of a reading. */
  predicate Layout(s: string, r: Reading) {
    OccursAt(s, ":star: ", 0) && BulletShows(s[7..], r)
  }

  /** A name read at the start of a text occurs there. */
  lemma ReadNameOccurs(s: string)
    requires ReadName(s).Some?
    ensures OccursAt(s, ObjectName(ReadName(s).value.0), 0)
  {
    var (o, rest) := ReadName(s).value;
    assert s[..|ObjectName(o)|] == ObjectName(o);
  }

  /** Where a conjunction body shows its second name. */
  lemma ConjunctionShows(n: string, n2: string, tail2: string)
    ensures OccursAt(n + (" et " + (n2 + tail2)), " et ", |n|)
    ensures OccursAt(n + (" et " + (n2 + tail2)), n2, |n| + 4)
  {
    PrefixOccurs(" et ", n2 + tail2);
    OccursShift(n, " et " + (n2 + tail2), " et ", 0);
    PrefixOccurs(n2, tail2);
    OccursShift(" et ", n2 + tail2, n2, 0);
    OccursShift(n, " et " + (n2 + tail2), n2, 4);
  }

  /** Where an occultation body shows its second name. */
  lemma OccultationShows(n: string, n2: string)
    ensures OccursAt(n + (" occulte " + n2), " occulte ", |n|)
    ensures OccursAt(n + (" occulte " + n2), n2, |n| + 9)
  {
    PrefixOccurs(" occulte ", n2);
    OccursShift(n, " occulte " + n2, " occulte ", 0);
    PrefixOccurs(n2, "");
    assert n2 + "" == n2;
    OccursShift(" occulte ", n2, n2, 0);
    OccursShift(n, " occulte " + n2, n2, 9);
  }

  lemma ReadElongationSound(at: Time, body: string, r: Reading)
    requires ReadBody(at, body) == Some(r) && Strip(body, "L'élongation de ").Some?
    ensures r == ElongationOf(at, r.body) && OccursAt(body, ObjectName(r.body), 16)
    ensures OccursAt(body, "L'élongation de ", 0)
  {
    var named := Strip(body, "L'élongation de ").value;
    PrefixOccurs("L'élongation de ", named);
    ReadNameOccurs(named);
    OccursShift("L'élongation de ", named, ObjectName(r.body), 0);
  }

  /** The second name of a conjunction or an occultation body. */
  lemma ReadPairTailSound(at: Time, o: ObjectId, tail: string, r: Reading)
    requires ReadNamedTail(at, o, tail) == Some(r) && (r.ConjunctionOf? || r.OccultationOf?)
    ensures r.ConjunctionOf? ==> OccursAt(ObjectName(o) + tail, " et ", |ObjectName(o)|)
    ensures r.ConjunctionOf? ==> OccursAt(ObjectName(o) + tail, ObjectName(r.second), |ObjectName(o)| + 4)
    ensures r.OccultationOf? ==> OccursAt(ObjectName(o) + tail, " occulte ", |ObjectName(o)|)
    ensures r.OccultationOf? ==> OccursAt(ObjectName(o) + tail, ObjectName(r.second), |ObjectName(o)| + 9)
  {
    NotArrivalReading(at, o, tail, r);
    match Strip(tail, " et ")
    case Some(second) =>
      var (o2, tail2) := ReadName(second).value;
      assert r == ConjunctionOf(at, o, o2);
      ConjunctionShows(ObjectName(o), ObjectName(o2), tail2);
    case None =>
      var second := Strip(tail, " occulte ").value;
      var o2 := ObjectOfName(second).value;
      assert r == OccultationOf(at, o, o2);
      OccultationShows(ObjectName(o), ObjectName(o2));
  }

  /** A reading of two objects did not come from an arrival tail. */
  lemma NotArrivalReading(at: Time, o: ObjectId, tail: string, r: Reading)
    requires ReadNamedTail(at, o, tail) == Some(r) && (r.ConjunctionOf? || r.OccultationOf?)
    ensures tail != " arrive à l'opposition"
    ensures tail != " arrive à son périgée"
    ensures tail != " arrive à son apogée"
  {
  }

  lemma ReadNamedBodySound(at: Time, o: ObjectId, tail: string, r: Reading)
    requires ReadNamedTail(at, o, tail) == Some(r)
    ensures r.at == at && !r.SeasonOf? && !r.EclipseOf? && !r.ElongationOf?
    ensures BodyShows(ObjectName(o) + tail, r)
  {
    PrefixOccurs(ObjectName(o), tail);
    if r.ConjunctionOf? || r.OccultationOf? {
      ReadPairTailSound(at, o, tail, r);
    }
  }

  lemma ReadBodySound(at: Time, body: string, r: Reading)
    requires ReadBody(at, body) == Some(r)
    ensures r.at == at && !r.SeasonOf? && !r.EclipseOf?
    ensures BodyShows(body, r)
  {
    if Strip(body, "L'élongation de ").Some? {
      ReadElongationSound(at, body, r);
    } else {
      var (o, tail) := ReadName(body).value;
      assert ReadNamedTail(at, o, tail) == Some(r);
      ReadNamedBodySound(at, o, tail, r);
    }
  }

  /** Where a lunar-eclipse text shows the eclipse word and the time of the maximum. */
  lemma EclipseShows(w: string, m: Time)
    ensures var details := w + (" de Lune (atteignant son maximum à " + (FormatTime(m) + ")"));
      OccursAt(details, w, 0) && |details| >= 6 && OccursAt(details, FormatTime(m), |details| - 6)
      && details[|details| - 1] == ')'
  {
    var rest := FormatTime(m) + ")";
    assert rest[5] == ')';
    PrefixOccurs(w, " de Lune (atteignant son maximum à " + rest);
    PrefixOccurs(FormatTime(m), ")");
    OccursShift(" de Lune (atteignant son maximum à ", rest, FormatTime(m), 0);
    var tail := " de Lune (atteignant son maximum à " + rest;
    OccursShift(w, tail, FormatTime(m), |tail| - 6);
  }

  lemma ReadEclipseSound(at: Time, details: string, r: Reading)
    requires ReadEclipse(at, details) == Some(r)
    ensures r.EclipseOf? && r.at == at
    ensures OccursAt(details, EclipseWord(r.eclipse), 0)
    ensures |details| >= 6 && OccursAt(details, FormatTime(r.maximum), |details| - 6)
    ensures details[|details| - 1] == ')'
  {
    var (eclipse, tail) := ReadEclipseWord(details).value;
    var rest := Strip(tail, " de Lune (atteignant son maximum à ").value;
    var maximum := ReadTimeThen(rest, ")").value;
    assert r == EclipseOf(at, eclipse, maximum);
    EclipseShows(EclipseWord(eclipse), maximum);
  }

  /** Where a season-change text shows the season word and the start time. */
  lemma SeasonShows(w: string, t: Time)
    ensures var s := w + (" a lieu a " + (FormatTime(t) + " aujourd'hui"));
      OccursAt(s, w, 0) && OccursAt(s, " a lieu a ", |w|) && OccursAt(s, FormatTime(t), |w| + 10)
  {
    var rest := FormatTime(t) + " aujourd'hui";
    PrefixOccurs(" a lieu a ", rest);
    OccursShift(w, " a lieu a " + rest, " a lieu a ", 0);
    PrefixOccurs(w, " a lieu a " + rest);
    PrefixOccurs(FormatTime(t), " aujourd'hui");
    OccursShift(" a lieu a ", rest, FormatTime(t), 0);
    OccursShift(w, " a lieu a " + rest, FormatTime(t), 10);
  }

  lemma ReadSeasonSound(s: string, r: Reading)
    requires ReadSeason(s) == Some(r)
    ensures r.SeasonOf?
    ensures OccursAt(s, EquinoxWord(r.equinox), 0)
    ensures OccursAt(s, " a lieu a ", |EquinoxWord(r.equinox)|)
    ensures OccursAt(s, FormatTime(r.at), |EquinoxWord(r.equinox)| + 10)
  {
    var (equinox, tail) := ReadSeasonWord(s).value;
    var rest := Strip(tail, " a lieu a ").value;
    var at := ReadTimeThen(rest, " aujourd'hui").value;
    assert r == SeasonOf(at, equinox);
    SeasonShows(EquinoxWord(equinox), at);
  }

  lemma ReadStampedBodySound(at: Time, body: string, r: Reading)
    requires ReadBody(at, body) == Some(r)
    ensures r.at == at && !r.SeasonOf? && !r.EclipseOf?
    ensures StampShows(" :** " + body, r)
  {
    ReadBodySound(at, body, r);
    PrefixOccurs(" :** ", body);
    assert (" :** " + body)[5..] == body;
  }

  lemma ReadStampedEclipseSound(at: Time, details: string, r: Reading)
    requires ReadEclipse(at, details) == Some(r)
    ensures r.at == at && r.EclipseOf?
    ensures StampShows(":** éclipse " + details, r)
  {
    ReadEclipseSound(at, details, r);
    PrefixOccurs(":** éclipse ", details);
    OccursShift(":** éclipse ", details, EclipseWord(r.eclipse), 0);
    OccursShift(":** éclipse ", details, FormatTime(r.maximum), |details| - 6);
    assert (":** éclipse " + details)[12 + |details| - 1] == details[|details| - 1];
  }

  lemma ReadStampedSound(at: Time, after: string, r: Reading)
    requires ReadStamped(at, after) == Some(r)
    ensures r.at == at && !r.SeasonOf?
    ensures StampShows(after, r)
  {
    match Strip(after, " :** ")
    case Some(body) =>
      ReadStampedBodySound(at, body, r);
    case None =>
      var details := Strip(after, ":** éclipse ").value;
      ReadStampedEclipseSound(at, details, r);
  }

  /** The bold start time in front of a stamped text. */
  lemma BulletShowsStamped(at: Time, after: string, r: Reading)
    requires r.at == at && !r.SeasonOf? && StampShows(after, r)
    ensures BulletShows("**" + (FormatTime(at) + after), r)
  {
    PrefixOccurs("**", FormatTime(at) + after);
    PrefixOccurs(FormatTime(at), after);
    OccursShift("**", FormatTime(at) + after, FormatTime(at), 0);
    assert ("**" + (FormatTime(at) + after))[7..] == after;
  }

  lemma ReadLineSoundStamped(rest: string, stamped: string, r: Reading)
    requires Strip(rest, "**") == Some(stamped)
    requires |stamped| >= 5 && ParseTime(stamped[..5]).Some?
    requires ReadStamped(ParseTime(stamped[..5]).value, stamped[5..]) == Some(r)
    ensures BulletShows(rest, r)
  {
    var at := ParseTime(stamped[..5]).value;
    ReadStampedSound(at, stamped[5..], r);
    assert stamped == FormatTime(at) + stamped[5..];
    BulletShowsStamped(at, stamped[5..], r);
  }

  /** Every line the reader accepts is laid out as the reading says. */
  lemma ReadLineSound(s: string, r: Reading)
    requires ReadLine(s) == Some(r)
    ensures Layout(s, r)
  {
    var rest := Strip(s, ":star: ").value;
    PrefixOccurs(":star: ", rest);
    assert s[7..] == rest;
    match Strip(rest, "**")
    case None =>
      ReadSeasonSound(rest, r);
    case Some(stamped) =>
      ReadLineSoundStamped(rest, stamped, r);
  }

  /** Every rendered line is laid out as what it shows says. */
  lemma LineLayout(e: Event)
    requires Renderable(e)
    ensures Layout(Line(e), ReadingOf(e))
  {
    ReadLineOf(e);
    ReadLineSound(Line(e), ReadingOf(e));
  }

  lemma OccursInSuffix(s: string, k: nat, sub: string, i: nat)
    requires k <= |s| && OccursAt(s[k..], sub, i)
    ensures OccursAt(s, sub, k + i)
  {
  }

  /** Absolute positions of the header a layout promises. */
  lemma LayoutHeader(s: string, r: Reading)
    requires Layout(s, r)
    ensures !r.SeasonOf? ==> OccursAt(s, "**", 7) && OccursAt(s, FormatTime(r.at), 9)
    ensures r.EclipseOf? ==> OccursAt(s, ":** éclipse ", 14)
    ensures !r.SeasonOf? && !r.EclipseOf? ==> OccursAt(s, " :** ", 14)
  {
    if !r.SeasonOf? {
      OccursInSuffix(s, 7, "**", 0);
      OccursInSuffix(s, 7, FormatTime(r.at), 2);
      assert s[7..][7..] == s[14..];
      if r.EclipseOf? {
        OccursInSuffix(s, 14, ":** éclipse ", 0);
      } else {
        OccursInSuffix(s, 14, " :** ", 0);
      }
    }
  }

  /** Absolute positions of the object names a layout promises. */
  lemma LayoutNames(s: string, r: Reading)
    requires Layout(s, r) && !r.SeasonOf? && !r.EclipseOf?
    ensures BodyShows(s[19..], r)
  {
    assert s[7..][7..][5..] == s[19..];
  }

  /** The second name of a conjunction layout. */
  lemma LayoutConjunction(s: string, r: Reading)
    requires Layout(s, r) && r.ConjunctionOf?
    ensures OccursAt(s[19..], " et ", |ObjectName(r.first)|)
    ensures OccursAt(s[19..], ObjectName(r.second), |ObjectName(r.first)| + 4)
  {
    LayoutNames(s, r);
  }

  /** The second name of an occultation layout. */
  lemma LayoutOccultation(s: string, r: Reading)
    requires Layout(s, r) && r.OccultationOf?
    ensures OccursAt(s[19..], " occulte ", |ObjectName(r.first)|)
    ensures OccursAt(s[19..], ObjectName(r.second), |ObjectName(r.first)| + 9)
  {
    LayoutNames(s, r);
  }

  /** Absolute positions of a season-change layout. */
  lemma LayoutSeason(s: string, r: Reading)
    requires Layout(s, r) && r.SeasonOf?
    ensures OccursAt(s, EquinoxWord(r.equinox), 7)
    ensures OccursAt(s, " a lieu a ", 7 + |EquinoxWord(r.equinox)|)
    ensures OccursAt(s, FormatTime(r.at), 7 + |EquinoxWord(r.equinox)| + 10)
  {
    OccursInSuffix(s, 7, EquinoxWord(r.equinox), 0);
    OccursInSuffix(s, 7, " a lieu a ", |EquinoxWord(r.equinox)|);
    OccursInSuffix(s, 7, FormatTime(r.at), |EquinoxWord(r.equinox)| + 10);
  }

  /** Absolute positions of a lunar-eclipse layout. */
  lemma LayoutEclipse(s: string, r: Reading)
    requires Layout(s, r) && r.EclipseOf?
    ensures forall t :: OccursAt(s, EclipseWord(t), 26) <==> t == r.eclipse
    ensures |s| >= 32 && OccursAt(s, FormatTime(r.maximum), |s| - 6) && s[|s| - 1] == ')'
  {
    assert s[7..][7..] == s[14..];
    assert s[14..][|s| - 14 - 1] == s[|s| - 1];
    OccursInSuffix(s, 14, EclipseWord(r.eclipse), 12);
    OccursInSuffix(s, 14, FormatTime(r.maximum), |s| - 14 - 6);
    forall t | OccursAt(s, EclipseWord(t), 26) ensures t == r.eclipse {
      assert s[26] == EclipseWord(t)[0] == EclipseWord(r.eclipse)[0];
      assert s[27] == EclipseWord(t)[1] == EclipseWord(r.eclipse)[1];
    }
  }

  /** Every line starts with the bullet; every line but a season change's then
      shows its start time in bold, followed by " :** ", or by ":** éclipse " for a lunar eclipse. */
  lemma LineHeader(e: Event)
    requires Renderable(e)
    ensures OccursAt(Line(e), ":star: ", 0)
    ensures !e.kind.SeasonChange? ==>
      OccursAt(Line(e), "**", 7) && OccursAt(Line(e), FormatTime(e.start), 9)
    ensures e.kind.LunarEclipse? ==> OccursAt(Line(e), ":** éclipse ", 14)
    ensures !e.kind.SeasonChange? && !e.kind.LunarEclipse? ==> OccursAt(Line(e), " :** ", 14)
  {
    LineLayout(e);
    LayoutHeader(Line(e), ReadingOf(e));
  }

  /** The name of objects[0] opens the text after the header, or follows
      "L'élongation de " there for a maximal elongation. */
  lemma LineNames(e: Event)
    requires Renderable(e) && !e.kind.SeasonChange? && !e.kind.LunarEclipse?
    ensures e.kind != MaximalElongation ==> OccursAt(Line(e)[19..], ObjectName(e.objects[0]), 0)
    ensures e.kind == MaximalElongation ==>
      OccursAt(Line(e)[19..], "L'élongation de ", 0) && OccursAt(Line(e)[19..], ObjectName(e.objects[0]), 16)
  {
    LineLayout(e);
    LayoutNames(Line(e), ReadingOf(e));
  }

  /** In a conjunction line, " et " follows the name of objects[0], and the
      name of objects[1] follows that. */
  lemma ConjunctionNames(e: Event)
    requires Renderable(e) && e.kind == Conjunction
    ensures OccursAt(Line(e)[19..], " et ", |ObjectName(e.objects[0])|)
    ensures OccursAt(Line(e)[19..], ObjectName(e.objects[1]), |ObjectName(e.objects[0])| + 4)
  {
    var r := ConjunctionOf(e.start, e.objects[0], e.objects[1]);
    assert ReadingOf(e) == r;
    LineLayout(e);
    LayoutConjunction(Line(e), r);
  }

  /** In an occultation line, " occulte " follows the name of objects[0], and
      the name of objects[1] follows that. */
  lemma OccultationNames(e: Event)
    requires Renderable(e) && e.kind == Occultation
    ensures OccursAt(Line(e)[19..], " occulte ", |ObjectName(e.objects[0])|)
    ensures OccursAt(Line(e)[19..], ObjectName(e.objects[1]), |ObjectName(e.objects[0])| + 9)
  {
    var r := OccultationOf(e.start, e.objects[0], e.objects[1]);
    assert ReadingOf(e) == r;
    LineLayout(e);
    LayoutOccultation(Line(e), r);
  }

  /** A season-change line names "L'équinoxe" right after the bullet exactly when
      the season is the March or the September equinox, and "Le solstice" otherwise;
      the start time follows " a lieu a ". */
  lemma SeasonLine(e: Event)
    requires Renderable(e) && e.kind.SeasonChange?
    ensures OccursAt(Line(e), "L'équinoxe", 7) <==> IsEquinox(e.kind.season)
    ensures OccursAt(Line(e), "Le solstice", 7) <==> !IsEquinox(e.kind.season)
    ensures OccursAt(Line(e), " a lieu a ", 7 + |SeasonWord(e.kind.season)|)
    ensures OccursAt(Line(e), FormatTime(e.start), 7 + |SeasonWord(e.kind.season)| + 10)
  {
    var s := Line(e);
    LineLayout(e);
    LayoutSeason(s, ReadingOf(e));
    EquinoxWordAt(s, IsEquinox(e.kind.season), true);
    EquinoxWordAt(s, IsEquinox(e.kind.season), false);
  }

  /** At most one of the two season words occurs at a given place. */
  lemma EquinoxWordAt(s: string, b: bool, c: bool)
    requires OccursAt(s, EquinoxWord(b), 7)
    ensures OccursAt(s, EquinoxWord(c), 7) <==> b == c
  {
    if OccursAt(s, EquinoxWord(c), 7) {
      assert EquinoxWord(b)[1] == s[8] == EquinoxWord(c)[1];
    }
  }

  /** A lunar-eclipse line shows the eclipse type as exactly one of "partielle",
      "pénombrale" and "totale", and ends with the time of the maximum in parentheses. */
  lemma EclipseLine(e: Event)
    requires Renderable(e) && e.kind.LunarEclipse?
    ensures forall t :: OccursAt(Line(e), EclipseWord(t), 26) <==> t == e.kind.eclipse
    ensures |Line(e)| >= 32 && OccursAt(Line(e), FormatTime(e.kind.maximum), |Line(e)| - 6)
    ensures Line(e)[|Line(e)| - 1] == ')'
  {
    LineLayout(e);
    LayoutEclipse(Line(e), ReadingOf(e));
  }

  lemma TimeNewlineFree(t: Time)
    ensures NewlineFree(FormatTime(t))
  {
    var s := FormatTime(t);
    forall i | 0 <= i < 5 ensures s[i] != '\n' {
    }
  }

  lemma OneNameNewlineFree(e: Event)
    requires Renderable(e) && Arity(e.kind) == 1
    ensures NewlineFree(Line(e))
  {
    TimeNewlineFree(e.start);
    NameShape(e.objects[0]);
  }

  lemma TwoNamesNewlineFree(e: Event)
    requires Renderable(e) && Arity(e.kind) == 2
    ensures NewlineFree(Line(e))
  {
    TimeNewlineFree(e.start);
    NameShape(e.objects[0]);
    NameShape(e.objects[1]);
  }

  lemma SeasonNewlineFree(e: Event)
    requires Renderable(e) && e.kind.SeasonChange?
    ensures NewlineFree(Line(e))
  {
    TimeNewlineFree(e.start);
  }

  lemma EclipseNewlineFree(e: Event)
    requires Renderable(e) && e.kind.LunarEclipse?
    ensures NewlineFree(Line(e))
  {
    TimeNewlineFree(e.start);
    TimeNewlineFree(e.kind.maximum);
  }

  /** No line holds a newline, so joining lines with newlines keeps them apart.
      The kinds are proved in four groups because one proof over all eight
      templates is too costly for the solver. */
  lemma LineNewlineFree(e: Event)
    requires Renderable(e)
    ensures NewlineFree(Line(e))
  {
    match e.kind {
      case SeasonChange(_) => SeasonNewlineFree(e);
      case LunarEclipse(_, _) => EclipseNewlineFree(e);
      case _ =>
        if Arity(e.kind) == 2 {
          TwoNamesNewlineFree(e);
        } else {
          OneNameNewlineFree(e);
        }
    }
  }
}
