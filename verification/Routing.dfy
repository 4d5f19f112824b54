/** From a topic to the pipeline that owns it: printing and matching topic names. */
module Routing {
  import opened Wrappers
  import Naming

  function DefaultTopic(pipelineId: string): string {
    "pipeline." + pipelineId + ".events"
  }

  function StripEnd(suffix: string, s: string): Option<string> {
    if |suffix| <= |s| && s[|s| - |suffix|..] == suffix then Some(s[..|s| - |suffix|]) else None
  }

  lemma StripEndIs(s: string, suffix: string)
    ensures StripEnd(suffix, s + suffix) == Some(s)
  {
    assert (s + suffix)[|s|..] == suffix;
    assert (s + suffix)[..|s|] == s;
  }

  lemma StripEndInverts(suffix: string, s: string)
    requires StripEnd(suffix, s).Some?
    ensures s == StripEnd(suffix, s).value + suffix
  {
    assert s == s[..|s| - |suffix|] + s[|s| - |suffix|..];
  }

  /** The match of `^pipeline\.(.+)\.events$`: `.` is not a newline, and `$` also matches
      before one final newline. */
  function TopicPipelineId(topic: string): Option<string> {
    Middle(Naming.WithoutFinalNewline(topic))
  }

  function Middle(body: string): Option<string> {
    match Naming.Strip("pipeline.", body)
    case None => None
    case Some(rest) =>
      match StripEnd(".events", rest)
      case None => None
      case Some(id) => if id == "" || '\n' in id then None else Some(id)
  }

  lemma MiddleExactly(body: string, id: string)
    requires id != "" && '\n' !in id
    ensures Middle(body) == Some(id) <==> body == DefaultTopic(id)
  {
    if body == DefaultTopic(id) {
      assert body == "pipeline." + (id + ".events");
      Naming.StripIs("pipeline.", id + ".events");
      StripEndIs(id, ".events");
    }
    if Middle(body) == Some(id) {
      var rest := Naming.Strip("pipeline.", body).value;
      assert body == "pipeline." + rest;
      StripEndInverts(".events", rest);
      assert body == "pipeline." + id + ".events";
    }
  }

  lemma DefaultTopicEnds(id: string)
    ensures Naming.WithoutFinalNewline(DefaultTopic(id)) == DefaultTopic(id)
  {
    var topic := DefaultTopic(id);
    assert topic[|topic| - 1] == ".events"[6];
  }

  /** A default topic is matched back to the pipeline it was printed for. */
  lemma TopicRoundTrip(pipelineId: string)
    requires pipelineId != "" && '\n' !in pipelineId
    ensures TopicPipelineId(DefaultTopic(pipelineId)) == Some(pipelineId)
  {
    DefaultTopicEnds(pipelineId);
    MiddleExactly(DefaultTopic(pipelineId), pipelineId);
  }

  lemma NewlineGoesFirst(s: string)
    ensures Naming.WithoutFinalNewline(s + "\n") == s
  {
    assert (s + "\n")[..|s|] == s;
  }

  /** Which topics are matched to a pipeline, exactly: its default topic, and that topic
      with a newline after it, which Kafka does not allow in names. */
  lemma RoutedExactly(topic: string, pipelineId: string)
    requires pipelineId != "" && '\n' !in pipelineId
    ensures TopicPipelineId(topic) == Some(pipelineId)
      <==> topic == "pipeline." + pipelineId + ".events" || topic == "pipeline." + pipelineId + ".events\n"
  {
    var body := Naming.WithoutFinalNewline(topic);
    MiddleExactly(body, pipelineId);
    DefaultTopicEnds(pipelineId);
    NewlineGoesFirst(DefaultTopic(pipelineId));
    assert "pipeline." + pipelineId + ".events\n" == DefaultTopic(pipelineId) + "\n";
    if topic != body {
      assert topic == body + "\n";
    }
  }
}
