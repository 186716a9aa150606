# Kosmorro Discord bot: the daily digest

The bot runs once a day. It asks the astronomy library for the day's events,
writes one French line per event, and posts the lines as one message to a
Discord webhook. This project models, in Dafny, everything that
`webhook-call.py` computes between receiving the events and posting the
payload:

- `get_object_name`: the French display name of each of the ten objects
  (module `Sky`);
- `describe_event`: the line of each of the eight event kinds. This covers the
  `%H:%M` hour (module `Clock`), the equinox/solstice choice and the lunar
  eclipse words (module `Render`);
- the script itself: collect the lines in order, stop with exit code 0 when
  there are none, otherwise build the payload whose description is the lines
  joined by newlines (module `Digest`, with the join in `Text`).

An event is `Sky.Event(kind, start, objects)`. The two kinds whose text depends
on details carry them: the season of a season change, and the type and time of
maximum of a lunar eclipse. A time is the hour and minute that `strftime("%H:%M")`
prints, since the date never reaches a line.

`describe_event` reads `objects[0]` or `objects[1]`. An event with too few
objects raises an index error in the script, which ends the run with exit
code 1 before anything is posted. The model keeps that path:
- `Render.Describe` returns `Failure(IndexOutOfRange)`;
- `Digest.Run` and `Digest.RunScript` end in `Crash`.

`Render.Line` is only defined on events with enough objects.

Each modelled operation is paired with a partner and a lemma that connects the two:
- `ObjectName` with `ObjectOfName` / `ReadName`;
- `FormatTime` with `ParseTime`;
- `Line` with `ReadLine`, a reader that recovers from a line what it shows (a `Reading`);
- `Join` with `Split`;
- the loop `RunScript` with the function `Run`.

Three details of the texts, as the code prints them:
- the season line reads "L'équinoxe a lieu a HH:MM aujourd'hui" (or "Le solstice
  …"), with "a" written without an accent both times;
- the lunar-eclipse header has no space before the colon (`**HH:MM:**`), unlike
  the other kinds (`**HH:MM :**`). The line ends "de Lune (atteignant son maximum
  à HH:MM)";
- the message content is always the same sentence, whatever the events.

## Model

| member | source | states |
|---|---|---|
| Sky.ObjectName | webhook-call.py:16-28 | the display-name table; every name has 4 to 9 characters. What is proved about it is in `NamesDistinct`, `NamesPrefixFree`, `ReadNameOf` and `ObjectOfNameInverse` |
| Sky.Arity | webhook-call.py:34-63 | the number of objects each kind's line reads: none for a season change or a lunar eclipse, two exactly for a conjunction and an occultation, otherwise one |
| Sky.NamesDistinct | webhook-call.py:16-28 | two objects have the same display name if and only if they are the same object |
| Sky.NamesPrefixFree | webhook-call.py:16-28 | no display name is a prefix of another object's name |
| Sky.ReadNameOf | webhook-call.py:16-28 | a display name followed by any text reads back as that object and exactly that text |
| Sky.ReadNameNone | webhook-call.py:16-28 | the name reader fails only on a text that no display name starts |
| Sky.ObjectOfNameInverse | webhook-call.py:16-28 | every object's display name maps back to the object |
| Sky.ObjectOfNameNone | webhook-call.py:16-28 | a text with no object is no object's display name |
| Clock.TwoDigits | webhook-call.py:32 | a number below 100 prints as two decimal digits, zero-padded, whose value is the number |
| Clock.FormatTime | webhook-call.py:32 | `%H:%M` is five characters: two digits whose value is the hour, a colon, two digits whose value is the minute |
| Clock.ParseFormat | webhook-call.py:32 | reading a formatted time gives back the time |
| Clock.FormatTimeInjective | webhook-call.py:32 | two times print the same text if and only if they are equal |
| Render.EquinoxWord | webhook-call.py:48-51 | "L'équinoxe" for an equinox, "Le solstice" otherwise; `SeasonLine` proves that the line says "L'équinoxe" exactly for the March and September equinoxes |
| Render.SeasonWord | webhook-call.py:46-53 | the season sub-table: the word of a season; `SeasonLine` proves which seasons get which word |
| Render.EclipseWord | webhook-call.py:57-61 | the eclipse sub-table: "partielle", "pénombrale", "totale"; `ReadEclipseWordOf` proves that each word reads back as its type, and `EclipseLine` that a line shows only its own type's word |
| Render.Line | webhook-call.py:33-64 | the eight templates, defined for events with enough objects. What is proved about it is in `ReadLineOf` and `ReadLineSound` (it can be read back), `LineInjective` (it determines what it shows), `LineHeader`, `LineNames`, `ConjunctionNames`, `OccultationNames`, `SeasonLine`, `EclipseLine` (where each part sits) and `LineNewlineFree` |
| Render.Describe | webhook-call.py:31-64 | rendering succeeds if and only if the event has as many objects as its kind's line reads, and then yields the event's line; otherwise it fails with the index error |
| Render.ReadLineOf | webhook-call.py:31-64 | reading any rendered line gives back its kind, start time, the named objects, the equinox/solstice choice, the eclipse type and the time of maximum |
| Render.ReadLineSound | webhook-call.py:31-64 | any text the reader accepts has the bullet at 0 and the parts of the reading at the places the templates put them |
| Render.LineInjective | webhook-call.py:31-64 | two events render the same line if and only if they agree on kind, start time, the objects the line names and the details it prints |
| Render.LineReadsOnlyItsObjects | webhook-call.py:34-63 | replacing objects beyond the first Arity(kind) leaves the line unchanged |
| Render.LineHeader | webhook-call.py:32-54 | every line starts with ":star: "; all but a season change then show the start time in bold at 9, followed by " :** ", or by ":** éclipse " for a lunar eclipse |
| Render.LineNames | webhook-call.py:34-45 | after the header (from index 19), objects[0]'s name opens the text; for an elongation the text opens with "L'élongation de " and the name follows at offset 16 |
| Render.ConjunctionNames | webhook-call.py:36-37 | in a conjunction line, " et " follows objects[0]'s name and objects[1]'s name follows " et " |
| Render.OccultationNames | webhook-call.py:38-39 | in an occultation line, " occulte " follows objects[0]'s name and objects[1]'s name follows " occulte " |
| Render.SeasonLine | webhook-call.py:46-53 | a season-change line says "L'équinoxe" exactly for the March and September equinoxes and "Le solstice" otherwise, then " a lieu a ", then the start time |
| Render.EclipseLine | webhook-call.py:54-63 | a lunar-eclipse line shows exactly one eclipse word, the one of its type, and ends with the time of maximum followed by the closing parenthesis, its last character |
| Render.LineNewlineFree | webhook-call.py:31-64 | no line contains a newline |
| Digest.Run | webhook-call.py:67-99 | the outcome of a run. What is proved about it is in `RunScript` (the loop computes it), `NothingToSendIffNoEvents`, `PostIffEvents` and `DescriptionLines` |
| Digest.MakePayload | webhook-call.py:84-99 | the posted JSON body: the fixed content sentence and one embed with the title, the footer text and icon, and the description; `DescriptionLines` proves what the description holds |
| Digest.ExitCode | webhook-call.py:73-75 | the exit code is 0 exactly when the run did not crash |
| Digest.Lines | webhook-call.py:67-70 | one line per event, in event order, each the event's line |
| Digest.RunScript | webhook-call.py:67-99 | the loop, the early exit and the post produce the outcome `Run` defines: crash on the first event that cannot render, nothing sent when there are no events, else one post |
| Digest.NothingToSendIffNoEvents | webhook-call.py:73-75 | nothing is posted, with exit code 0, exactly when the day has no event |
| Digest.PostIffEvents | webhook-call.py:67-99 | a post happens exactly when there is an event and all events render; a crash happens exactly when some event lacks an object its line reads |
| Digest.DescriptionLines | webhook-call.py:84-99 | the posted message has one embed whose description, split at newlines, is exactly the events' lines in order |
| Text.SplitJoin | webhook-call.py:95 | splitting newline-joined, newline-free lines gives back the lines |
| Text.JoinSplit | webhook-call.py:95 | joining the parts of a split with newlines gives back the text |

## Left out

- `get_events` from the astronomy library: the day's events are an input. The
  astronomy computation lives in the library, which is not part of this model.
- Objects outside the ten named ones, event kinds outside the eight, and missing
  season or eclipse details are not modelled. The types are closed enumerations.
  In the script, an unknown object or eclipse type would print "None", and an
  unknown event kind would raise a type error.
- The date in the title (`dates.format_date(...).capitalize()`, locale data) is
  a parameter of `Run` and `RunScript`.
- The webhook URL from the environment and the HTTP call: `Post(payload)` is the
  one request the script makes. Network failures are not modelled.
- The two `print` messages to standard output.
- The date part of the timestamps: only `%H:%M` reaches a line, and time zones
  are taken as already UTC.
- Text is modelled as sequences of characters; JSON encoding of the payload is
  not modelled.
