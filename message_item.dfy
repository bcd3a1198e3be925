/**
 * What one chat message renders as (src/components/chat/MessageItem.tsx):
 * an avatar chosen by role, then either the message text or one part per
 * tool invocation. The markup itself is not modelled, only the choice.
 */
module MessageItemView {
  import opened Wrappers
  import opened ChatMessages
  import MacroSummary

  /** The only tool whose invocations render anything. */
  const NutrientsTool: string := "nutrients"

  datatype Avatar =
    | UserImage(url: string)   // the signed-in user's picture
    | UserPlaceholder          // the grey user icon
    | BotIcon                  // the blue bot icon

  /** An empty image URL is falsy, so it shows the placeholder too. */
  function AvatarFor(role: Role, userImage: Option<string>): (a: Avatar)
    ensures a.BotIcon? <==> role != User
    ensures a.UserImage? <==> role == User && userImage.Some? && userImage.value != ""
    ensures a.UserImage? ==> a.url == userImage.value
  {
    if role != User then BotIcon
    else if userImage.Some? && userImage.value != "" then UserImage(userImage.value)
    else UserPlaceholder
  }

  datatype Part =
    | Summary(foods: seq<MacroSummary.Food>, messageId: string, messageCreatedAt: int)  // MacroSummary
    | Loading                                                                          // MacroSummaryLoading
    | Nothing                                                                          // `false`: renders nothing

  datatype Body = Content(text: string) | Parts(parts: seq<Part>)

  function PartFor(m: Message, ti: ToolInvocation): Part {
    if ti.toolName != NutrientsTool then Nothing
    else match ti.state
      case Result(foods) => Summary(foods, m.id, m.createdAt)
      case _ => Loading
  }

  /** Whether the message has at least one tool invocation (`toolInvocations?.length`). */
  predicate HasInvocations(m: Message) {
    m.toolInvocations.Some? && |m.toolInvocations.value| > 0
  }

  /**
   * The body: the text when there are no tool invocations; otherwise one
   * part per invocation, in order, a summary for a finished `nutrients`
   * call (given its result, the message id and its creation time), a
   * loading skeleton for an unfinished one, and nothing for other tools.
   */
  function BodyFor(m: Message): (b: Body)
    ensures b.Content? <==> !HasInvocations(m)
    ensures b.Content? ==> b.text == m.content
    ensures b.Parts? ==>
      var tis := m.toolInvocations.value;
      && |b.parts| == |tis|
      && (forall i :: 0 <= i < |tis| ==>
            (b.parts[i].Nothing? <==> tis[i].toolName != NutrientsTool))
      && (forall i :: 0 <= i < |tis| ==>
            (b.parts[i].Loading? <==> tis[i].toolName == NutrientsTool && !tis[i].state.Result?))
      && (forall i :: 0 <= i < |tis| ==>
            (b.parts[i].Summary? <==> tis[i].toolName == NutrientsTool && tis[i].state.Result?))
      && (forall i :: 0 <= i < |tis| && b.parts[i].Summary? ==>
            b.parts[i] == Summary(tis[i].state.result, m.id, m.createdAt))
  {
    if !HasInvocations(m) then Content(m.content)
    else Parts(seq(|m.toolInvocations.value|, i requires 0 <= i < |m.toolInvocations.value| =>
                 PartFor(m, m.toolInvocations.value[i])))
  }

  /** The food lists of the summaries among `parts`, in order. */
  function SummaryFoods(parts: seq<Part>): seq<seq<MacroSummary.Food>> {
    if parts == [] then []
    else
      var n := |parts| - 1;
      SummaryFoods(parts[..n]) + (if parts[n].Summary? then [parts[n].foods] else [])
  }

  /** The results of the finished `nutrients` invocations, in order. */
  function NutrientResults(tis: seq<ToolInvocation>): seq<seq<MacroSummary.Food>> {
    if tis == [] then []
    else
      var n := |tis| - 1;
      NutrientResults(tis[..n]) +
        (if tis[n].toolName == NutrientsTool && tis[n].state.Result? then [tis[n].state.result] else [])
  }

  /**
   * The summaries a message shows are exactly its finished nutrients
   * results, one each and in invocation order: none is dropped, repeated or
   * reordered.
   */
  lemma {:induction false} SummariesAreResults(m: Message, tis: seq<ToolInvocation>)
    ensures SummaryFoods(seq(|tis|, i requires 0 <= i < |tis| => PartFor(m, tis[i]))) == NutrientResults(tis)
  {
    if tis != [] {
      var n := |tis| - 1;
      var parts := seq(|tis|, i requires 0 <= i < |tis| => PartFor(m, tis[i]));
      assert parts[..n] == seq(n, i requires 0 <= i < n => PartFor(m, tis[..n][i]));
      SummariesAreResults(m, tis[..n]);
    }
  }

  /** For a message with invocations, the summaries shown are its finished nutrients results. */
  lemma BodySummaries(m: Message)
    requires HasInvocations(m)
    ensures BodyFor(m).Parts?
    ensures SummaryFoods(BodyFor(m).parts) == NutrientResults(m.toolInvocations.value)
  {
    var tis := m.toolInvocations.value;
    var parts := seq(|tis|, i requires 0 <= i < |tis| => PartFor(m, tis[i]));
    assert BodyFor(m).parts == parts;
    SummariesAreResults(m, tis);
  }
}
