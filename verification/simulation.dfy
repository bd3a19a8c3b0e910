/**
 * When the automatic playground stops (src/frontend/views/bot_tests.py,
 * `_check_simulation_termination`): a safety limit on the bot's replies, or
 * the simulated customer saying goodbye and thanks.
 */
module Simulation {
  import opened PyText

  /** How many bot replies one automatic simulation may produce. */
  const MaxSafetyTurns := 25

  /** One transcript entry: who spoke and what. */
  datatype Turn = Turn(role: string, content: string)

  /** The number of bot (`assistant`) entries in the transcript. */
  function AssistantTurns(ts: seq<Turn>): (n: nat)
    ensures n <= |ts|
    decreases |ts|
  {
    if ts == [] then 0
    else AssistantTurns(ts[..|ts| - 1]) + (if ts[|ts| - 1].role == "assistant" then 1 else 0)
  }

  /** Does the text, upper-cased, contain both farewell words? */
  predicate SaysGoodbye(content: string) {
    Contains(Upper(content), "TCHAU") && Contains(Upper(content), "OBRIGADO")
  }

  /** The decision: keep going, stop at the safety limit, or stop because the customer left. */
  datatype Verdict = Continue | SafetyStop | CustomerDone

  /**
   * The safety limit is checked first; otherwise the simulation ends only
   * when the last entry is the customer's and it says goodbye.
   */
  function CheckTermination(ts: seq<Turn>): (v: Verdict)
    ensures v == SafetyStop <==> AssistantTurns(ts) >= MaxSafetyTurns
    ensures v == CustomerDone <==> (AssistantTurns(ts) < MaxSafetyTurns && ts != []
                                    && ts[|ts| - 1].role == "user" && SaysGoodbye(ts[|ts| - 1].content))
  {
    if AssistantTurns(ts) >= MaxSafetyTurns then SafetyStop
    else if ts != [] && ts[|ts| - 1].role == "user" && SaysGoodbye(ts[|ts| - 1].content) then CustomerDone
    else Continue
  }

  /** Adding entries never lowers the count of bot replies. */
  lemma AssistantTurnsGrow(ts: seq<Turn>, t: Turn)
    ensures AssistantTurns(ts + [t]) == AssistantTurns(ts) + (if t.role == "assistant" then 1 else 0)
  {
    assert (ts + [t])[..|ts|] == ts;
  }

  /** Once the safety limit is reached, it stays reached whatever is said next. */
  lemma SafetyStopIsFinal(ts: seq<Turn>, t: Turn)
    requires CheckTermination(ts) == SafetyStop
    ensures CheckTermination(ts + [t]) == SafetyStop
  {
    AssistantTurnsGrow(ts, t);
  }

  /** A bot reply never ends the simulation as a farewell, whatever it says. */
  lemma BotCannotSayGoodbye(ts: seq<Turn>, content: string)
    ensures CheckTermination(ts + [Turn("assistant", content)]) != CustomerDone
  {
    var t := Turn("assistant", content);
    assert (ts + [t])[|ts + [t]| - 1] == t;
  }

  /** The farewell words written in lower case still count. */
  lemma GoodbyeAnyCase(content: string)
    requires Contains(content, "tchau") && Contains(content, "obrigado")
    ensures SaysGoodbye(content)
  {
    ContainsUpper(content, "tchau");
    ContainsUpper(content, "obrigado");
    UpperTchau();
    UpperObrigado();
  }

  lemma UpperTchau()
    ensures Upper("tchau") == "TCHAU"
  {
    UpperAscii("tchau", "TCHAU");
  }

  lemma UpperObrigado()
    ensures Upper("obrigado") == "OBRIGADO"
  {
    UpperAscii("obrigado", "OBRIGADO");
  }

  /**
   * A customer entry containing "tchau" and "obrigado", in lower case and
   * in either order, ends a simulation that is below the safety limit.
   */
  lemma FarewellEnds(ts: seq<Turn>, content: string)
    requires AssistantTurns(ts) < MaxSafetyTurns
    requires Contains(content, "tchau") && Contains(content, "obrigado")
    ensures CheckTermination(ts + [Turn("user", content)]) == CustomerDone
  {
    var t := Turn("user", content);
    AssistantTurnsGrow(ts, t);
    GoodbyeAnyCase(content);
    assert (ts + [t])[|ts + [t]| - 1] == t;
  }
}
