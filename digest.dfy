/** The top-level script: render every event of the day in source order, stop
    quietly when there is none, otherwise post one webhook payload whose embed
    description is the lines joined by newlines. */
module Digest {
  import opened Wrappers
  import opened Text
  import opened Sky
  import opened Render

  const Content := "Sortez les télescopes, voici les événements astro du jour !"
  const FooterText := "Propulsé par Kosmorrolib - les horaires sont données en UTC."
  const FooterIcon := "https://raw.githubusercontent.com/Kosmorro/logos/main/png/kosmorro-icon.png"

  datatype Embed = Embed(title: string, footerText: string, footerIcon: string, description: string)

  /** The JSON body posted to the webhook. */
  datatype Payload = Payload(content: string, embeds: seq<Embed>)

  /** How one run of the script ends. */
  datatype Outcome =
    | Crash(error: RenderError)   // an uncaught exception while rendering
    | NothingToSend               // no events: nothing is posted, exit(0)
    | Post(payload: Payload)      // one webhook call with this payload

  function ExitCode(o: Outcome): (code: nat)
    ensures code == 0 <==> !o.Crash?
  {
    if o.Crash? then 1 else 0
  }

  predicate AllRenderable(events: seq<Event>) {
    forall i :: 0 <= i < |events| ==> Renderable(events[i])
  }

  /** The rendered lines, built by appending one line per event. */
  function Lines(events: seq<Event>): (lines: seq<string>)
    requires AllRenderable(events)
    ensures |lines| == |events|
    ensures forall i :: 0 <= i < |events| ==> lines[i] == Line(events[i])
  {
    Rendered(events, Line)
  }

  /** `render` applied to each event, in order, built by appending at the end. */
  function Rendered<T>(events: seq<Event>, render: Event --> T): (out: seq<T>)
    requires forall i :: 0 <= i < |events| ==> render.requires(events[i])
    ensures |out| == |events|
    ensures forall i :: 0 <= i < |events| ==> out[i] == render(events[i])
  {
    if events == [] then []
    else
      var init := events[..|events| - 1];
      assert forall i :: 0 <= i < |init| ==> init[i] == events[i];
      Rendered(init, render) + [render(events[|events| - 1])]
  }

  function MakePayload(title: string, description: string): (p: Payload) {
    Payload(Content, [Embed(title, FooterText, FooterIcon, description)])
  }

  /** What one run does with the day's events; `title` is today's date as the
      locale formats it. */
  function Run(events: seq<Event>, title: string): (o: Outcome) {
    if !AllRenderable(events) then Crash(IndexOutOfRange)
    else if |Lines(events)| == 0 then NothingToSend
    else Post(MakePayload(title, Join(Lines(events))))
  }

  /** The script: the loop that collects the lines, the early exit, the post. */
  method RunScript(events: seq<Event>, title: string) returns (o: Outcome)
    ensures o == Run(events, title)
  {
    var lines: seq<string> := [];
    var i := 0;
    while i < |events|
      invariant 0 <= i <= |events|
      invariant AllRenderable(events[..i])
      invariant lines == Lines(events[..i])
    {
      var d := Describe(events[i]);
      if d.Failure? {
        NotAllRenderable(events, i);
        return Crash(d.error);
      }
      LinesStep(events, i);
      lines := lines + [d.value];
      i := i + 1;
    }
    assert events[..i] == events;
    if |lines| == 0 {
      return NothingToSend;
    }
    return Post(MakePayload(title, Join(lines)));
  }

  /** One more loop round appends the next event's line. */
  lemma LinesStep(events: seq<Event>, i: nat)
    requires i < |events| && AllRenderable(events[..i]) && Renderable(events[i])
    ensures AllRenderable(events[..i + 1])
    ensures Lines(events[..i + 1]) == Lines(events[..i]) + [Line(events[i])]
  {
    assert events[..i + 1][..i] == events[..i];
  }

  /** An event that does not render makes the whole day unrenderable. */
  lemma NotAllRenderable(events: seq<Event>, i: nat)
    requires i < |events| && !Renderable(events[i])
    ensures !AllRenderable(events)
  {
  }

  /** Nothing is posted, and the exit code is 0, exactly when there is no event. */
  lemma NothingToSendIffNoEvents(events: seq<Event>, title: string)
    ensures Run(events, title) == NothingToSend <==> events == []
    ensures events == [] ==> ExitCode(Run(events, title)) == 0
  {
  }

  /** A run posts exactly when there is at least one event and every event renders;
      it crashes exactly when some event lacks an object its line reads. */
  lemma PostIffEvents(events: seq<Event>, title: string)
    ensures Run(events, title).Post? <==> events != [] && AllRenderable(events)
    ensures Run(events, title).Crash? <==> exists i :: 0 <= i < |events| && !Renderable(events[i])
  {
  }

  /** The posted description holds one line per event, in source order: splitting
      it at its newlines gives back exactly the rendered lines. */
  lemma DescriptionLines(events: seq<Event>, title: string)
    requires Run(events, title).Post?
    ensures |Run(events, title).payload.embeds| == 1
    ensures var parts := Split(Run(events, title).payload.embeds[0].description);
      |parts| == |events| && forall i :: 0 <= i < |events| ==> parts[i] == Line(events[i])
  {
    var lines := Lines(events);
    forall i | 0 <= i < |lines| ensures NewlineFree(lines[i]) {
      LineNewlineFree(events[i]);
    }
    SplitJoin(lines);
  }
}
