/**
 * The supervisor node: it asks an LLM which agent should run next and turns the
 * free-text reply into a routing token. The reply is stripped and lower-cased;
 * anything outside the node's fixed menu falls back to the sentinel "FINISH".
 */
module SupervisorAgent {
  import opened Wrappers
  import opened Text
  import opened Workflow

  /** The fallback written into `next` when the reply is not on the menu. */
  const Fallback: string := "FINISH"

  /** Menu of the shared supervisor used by mainllmv2.py and workflow/langgraph_system.py. */
  const AgentsMenu: seq<string> :=
    ["math_agent", "weather_agent", "flight_search_agent", "conversation_agent", "finish"]

  /** Menu of the supervisor defined inside mainllm.py. */
  const MainLlmMenu: seq<string> := ["math_agent", "weather_agent", "finish"]

  /** Every menu the source uses is lower-case, so the fallback is never on it. */
  predicate LowerCaseMenu(menu: seq<string>) {
    forall t :: t in menu ==> Lower(t) == t
  }

  /** The token the supervisor writes into `next` for a raw LLM reply. */
  function Normalize(reply: string, menu: seq<string>): (next: string)
    ensures next in menu || next == Fallback
  {
    var candidate := Lower(Strip(reply));
    if candidate in menu then candidate else Fallback
  }

  /** The update a supervisor call returns for the LLM's reply: it sets `next`
      to an on-menu token or the fallback, and never touches the messages. */
  function SupervisorNode(reply: string, menu: seq<string>): (u: Update)
    ensures u.messages.None?
    ensures u.next.Some? && (u.next.value in menu || u.next.value == Fallback)
  {
    Update(None, Some(Normalize(reply, menu)))
  }

  lemma AgentsMenuLowerCase()
    ensures LowerCaseMenu(AgentsMenu) && LowerCaseMenu(MainLlmMenu)
  {
    assert Lower("math_agent") == "math_agent";
    assert Lower("weather_agent") == "weather_agent";
    assert Lower("flight_search_agent") == "flight_search_agent";
    assert Lower("conversation_agent") == "conversation_agent";
    assert Lower("finish") == "finish";
  }

  /** Matching ignores surrounding whitespace. */
  lemma NormalizeIgnoresPadding(pre: string, reply: string, post: string, menu: seq<string>)
    requires LowerCaseMenu(menu) && AllSpace(pre) && AllSpace(post)
    ensures Normalize(pre + reply + post, menu) == Normalize(reply, menu)
  {
    StripIgnoresPadding(pre, reply, post);
  }

  /** Matching ignores letter case: replies equal up to case normalise alike. */
  lemma NormalizeIgnoresCase(a: string, b: string, menu: seq<string>)
    requires LowerCaseMenu(menu) && Lower(a) == Lower(b)
    ensures Normalize(a, menu) == Normalize(b, menu)
  {
    StripLowerCommute(a);
    StripLowerCommute(b);
  }

  /** A reply that is an on-menu token up to case and padding yields that token. */
  lemma NormalizeAcceptsToken(pre: string, reply: string, post: string, token: string, menu: seq<string>)
    requires menu == AgentsMenu || menu == MainLlmMenu
    requires AllSpace(pre) && AllSpace(post)
    requires token in menu && Lower(reply) == token
    ensures Normalize(pre + reply + post, menu) == token
  {
    AgentsMenuLowerCase();
    NormalizeIgnoresPadding(pre, reply, post, menu);
    NormalizeIgnoresCase(reply, token, menu);
    TokenHasNoPadding(token, menu);
    LowerIdempotent(token);
  }

  lemma TokenHasNoPadding(token: string, menu: seq<string>)
    requires token in menu && (menu == AgentsMenu || menu == MainLlmMenu)
    ensures Strip(token) == token
  {
    StripUnpadded(token);
  }

  /** The example from the supervisor's use: padded, capitalised agent names are accepted. */
  lemma PaddedCapitalisedReply()
    ensures Normalize("  Weather_Agent\n", AgentsMenu) == "weather_agent"
  {
    AgentsMenuLowerCase();
    assert "  Weather_Agent\n" == "  " + "Weather_Agent" + "\n";
    NormalizeAcceptsToken("  ", "Weather_Agent", "\n", "weather_agent", AgentsMenu);
  }

  /** "FINISH" in any case is on the menu as lower-case "finish". */
  lemma FinishInAnyCase(reply: string, menu: seq<string>)
    requires menu == AgentsMenu || menu == MainLlmMenu
    requires Lower(reply) == "finish"
    ensures Normalize(reply, menu) == "finish"
  {
    AgentsMenuLowerCase();
    assert "" + reply + "" == reply;
    if menu == AgentsMenu {
      NormalizeAcceptsToken("", reply, "", "finish", AgentsMenu);
    } else {
      NormalizeAcceptsToken("", reply, "", "finish", MainLlmMenu);
    }
  }

  /** Unknown words fall back to the sentinel. */
  lemma UnknownReplyFinishes()
    ensures Normalize("banana", AgentsMenu) == Fallback
    ensures Normalize("banana", MainLlmMenu) == Fallback
  {
    AgentsMenuLowerCase();
    StripUnpadded("banana");
    assert Lower("banana") == "banana";
  }

  /** The empty reply falls back to the sentinel. */
  lemma EmptyReplyFinishes(menu: seq<string>)
    requires LowerCaseMenu(menu) && "" !in menu
    ensures Normalize("", menu) == Fallback
  {
    StripUnpadded("");
  }

  /** Prose that merely mentions an agent is not accepted. */
  lemma ProseReplyFinishes()
    ensures Normalize("I think math_agent", AgentsMenu) == Fallback
  {
    AgentsMenuLowerCase();
    StripUnpadded("I think math_agent");
    assert Lower("I think math_agent")[0] == 'i';
  }

  /** The fallback is on no lower-case menu, so the upper-case sentinel comes out
      exactly for replies that are off the menu after stripping and lower-casing. */
  lemma FallbackExactlyOffMenu(reply: string, menu: seq<string>)
    requires LowerCaseMenu(menu)
    ensures Fallback !in menu
    ensures Normalize(reply, menu) == Fallback <==> Lower(Strip(reply)) !in menu
  {
    assert Lower(Fallback) != Fallback by {
      assert Lower(Fallback)[0] == 'f';
    }
  }
}
