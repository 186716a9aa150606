/** The events the astronomy library reports, with typed details, and the
    French display names of the celestial objects. */
module Sky {
  import opened Wrappers
  import opened Clock

  datatype ObjectId = Sun | Mercury | Venus | Moon | Mars | Jupiter | Saturn | Uranus | Neptune | Pluto

  datatype SeasonType = MarchEquinox | JuneSolstice | SeptemberEquinox | DecemberSolstice

  datatype EclipseType = Penumbral | Partial | Total

  /** The eight event kinds; the two whose text depends on details carry them. */
  datatype EventKind =
    | Opposition
    | Conjunction
    | Occultation
    | MaximalElongation
    | Perigee
    | Apogee
    | SeasonChange(season: SeasonType)
    | LunarEclipse(eclipse: EclipseType, maximum: Time)

  /** An event: its kind, the time of day it starts (UTC) and the objects it involves. */
  datatype Event = Event(kind: EventKind, start: Time, objects: seq<ObjectId>)

  /** How many entries of `objects` the kind's line reads. */
  function Arity(k: EventKind): (n: nat)
    ensures n <= 2
    ensures n == 0 <==> k.SeasonChange? || k.LunarEclipse?
    ensures n == 2 <==> k == Conjunction || k == Occultation
  {
    match k
    case Conjunction => 2
    case Occultation => 2
    case SeasonChange(_) => 0
    case LunarEclipse(_, _) => 0
    case _ => 1
  }

  /** The French display name of an object. */
  function ObjectName(o: ObjectId): (name: string)
    ensures 4 <= |name| <= 9
  {
    match o
    case Sun => "le Soleil"
    case Mercury => "Mercure"
    case Venus => "Vénus"
    case Moon => "la Lune"
    case Mars => "Mars"
    case Jupiter => "Jupiter"
    case Saturn => "Saturne"
    case Uranus => "Uranus"
    case Neptune => "Neptune"
    case Pluto => "Pluton"
  }

  const AllObjects: seq<ObjectId> :=
    [Sun, Mercury, Venus, Moon, Mars, Jupiter, Saturn, Uranus, Neptune, Pluto]

  /** Every object is listed. */
  lemma InAllObjects(o: ObjectId)
    ensures o in AllObjects
  {
    match o
    case Sun => assert AllObjects[0] == o;
    case Mercury => assert AllObjects[1] == o;
    case Venus => assert AllObjects[2] == o;
    case Moon => assert AllObjects[3] == o;
    case Mars => assert AllObjects[4] == o;
    case Jupiter => assert AllObjects[5] == o;
    case Saturn => assert AllObjects[6] == o;
    case Uranus => assert AllObjects[7] == o;
    case Neptune => assert AllObjects[8] == o;
    case Pluto => assert AllObjects[9] == o;
  }

  /** The first two letters of a name already tell the objects apart. */
  lemma InitialsDistinct(a: ObjectId, b: ObjectId)
    requires ObjectName(a)[0] == ObjectName(b)[0] && ObjectName(a)[1] == ObjectName(b)[1]
    ensures a == b
  {
  }

  /** No name is a prefix of another name, so a name read at the start of a text is unique. */
  lemma NamesPrefixFree(a: ObjectId, b: ObjectId)
    requires ObjectName(a) <= ObjectName(b)
    ensures a == b
  {
    InitialsDistinct(a, b);
  }

  /** The ten names are pairwise distinct. */
  lemma NamesDistinct(a: ObjectId, b: ObjectId)
    ensures ObjectName(a) == ObjectName(b) <==> a == b
  {
    if ObjectName(a) == ObjectName(b) {
      NamesPrefixFree(a, b);
    }
  }

  /** No name contains a newline, and none starts with "L'". */
  lemma NameShape(o: ObjectId)
    ensures '\n' !in ObjectName(o)
    ensures ObjectName(o)[1] != '\''
  {
  }

  /** The first object of `objs` whose name starts `s`. */
  function FirstNamedPrefix(s: string, objs: seq<ObjectId>): (r: Option<ObjectId>)
    ensures r.Some? ==> r.value in objs && ObjectName(r.value) <= s
  {
    if objs == [] then None
    else if ObjectName(objs[0]) <= s then Some(objs[0])
    else FirstNamedPrefix(s, objs[1..])
  }

  /** The search fails only when no name in `objs` starts `s`. */
  lemma {:induction false} FirstNamedPrefixNone(s: string, objs: seq<ObjectId>)
    requires FirstNamedPrefix(s, objs).None?
    ensures forall o :: o in objs ==> !(ObjectName(o) <= s)
    decreases |objs|
  {
    if objs != [] {
      FirstNamedPrefixNone(s, objs[1..]);
      forall o | o in objs ensures !(ObjectName(o) <= s) {
        if o != objs[0] {
          assert o in objs[1..];
        }
      }
    }
  }

  /** Reads an object name at the start of `s` and returns the object and the rest of `s`. */
  function ReadName(s: string): (r: Option<(ObjectId, string)>)
    ensures r.Some? ==> s == ObjectName(r.value.0) + r.value.1
  {
    match FirstNamedPrefix(s, AllObjects)
    case None => None
    case Some(o) => Some((o, s[|ObjectName(o)|..]))
  }

  /** The reader finds nothing only in a text that no name starts. */
  lemma ReadNameNone(s: string)
    requires ReadName(s).None?
    ensures forall o :: !(ObjectName(o) <= s)
  {
    FirstNamedPrefixNone(s, AllObjects);
    forall o ensures !(ObjectName(o) <= s) {
      InAllObjects(o);
    }
  }

  /** A name followed by anything reads back as that object and that rest. */
  lemma ReadNameOf(o: ObjectId, rest: string)
    ensures ReadName(ObjectName(o) + rest) == Some((o, rest))
  {
    var s := ObjectName(o) + rest;
    assert ObjectName(o) <= s;
    InAllObjects(o);
    var found := FirstNamedPrefix(s, AllObjects);
    if found.None? {
      FirstNamedPrefixNone(s, AllObjects);
    }
    assert ObjectName(found.value)[0] == ObjectName(o)[0];
    assert ObjectName(found.value)[1] == ObjectName(o)[1];
    InitialsDistinct(found.value, o);
    assert s[|ObjectName(o)|..] == rest;
  }

  /** The object a display name belongs to, if any. */
  function ObjectOfName(s: string): (r: Option<ObjectId>)
    ensures r.Some? ==> ObjectName(r.value) == s
  {
    match ReadName(s)
    case Some((o, rest)) => if rest == "" then Some(o) else None
    case None => None
  }

  /** Only a text that is no object's name has no object. */
  lemma ObjectOfNameNone(s: string)
    requires ObjectOfName(s).None?
    ensures forall o :: ObjectName(o) != s
  {
    forall o | ObjectName(o) == s ensures false {
      assert ObjectName(o) + "" == s;
      ReadNameOf(o, "");
    }
  }

  /** Every object's name leads back to the object. */
  lemma ObjectOfNameInverse(o: ObjectId)
    ensures ObjectOfName(ObjectName(o)) == Some(o)
  {
    ReadNameOf(o, "");
    assert ObjectName(o) + "" == ObjectName(o);
  }
}
