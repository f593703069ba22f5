/**
 * The login endpoint answers with a greeting such as "Welcome Asha!", which
 * the client stores as the user name. Three places turn it back into a name:
 * the order-history fetch, the Home screen's display name and the login
 * handler. All three strip one case-insensitive "welcome " prefix and one
 * trailing '!', trimming after each.
 */
module Greeting {
  import Text

  const WelcomePrefix := "welcome "

  /** The lower-cased string starts with "welcome ". */
  predicate HasWelcome(s: string) {
    Text.StartsWith(Text.ToLower(s), WelcomePrefix)
  }

  /** Drop the prefix (eight characters) and trim, if present; then drop a trailing '!' and trim, if present. */
  function StripWelcome(s: string): string {
    var afterPrefix := if HasWelcome(s) then Text.Trim(s[|WelcomePrefix|..]) else s;
    if Text.EndsWith(afterPrefix, '!') then Text.Trim(afterPrefix[..|afterPrefix| - 1]) else afterPrefix
  }

  /** A string with neither the prefix nor a trailing '!' is returned as it is. */
  lemma NoGreetingUnchanged(s: string)
    requires !HasWelcome(s) && !Text.EndsWith(s, '!')
    ensures StripWelcome(s) == s
  {
  }

  /** Whenever something was stripped, the result is trimmed. */
  lemma StrippedIsTrimmed(s: string)
    requires HasWelcome(s) || Text.EndsWith(s, '!')
    ensures Text.Trim(StripWelcome(s)) == StripWelcome(s)
  {
    var afterPrefix := if HasWelcome(s) then Text.Trim(s[|WelcomePrefix|..]) else s;
    if Text.EndsWith(afterPrefix, '!') {
      Text.TrimIdempotent(afterPrefix[..|afterPrefix| - 1]);
    } else {
      Text.TrimIdempotent(s[|WelcomePrefix|..]);
    }
  }

  /** The greeting the server builds is undone: the name comes back, for any capitalisation of "Welcome". */
  lemma GreetingRoundTrip(welcome: string, name: string)
    requires |welcome| == |WelcomePrefix| && Text.ToLower(welcome) == WelcomePrefix
    requires name == [] || (!Text.IsSpace(name[0]) && !Text.IsSpace(name[|name| - 1]))
    ensures StripWelcome(welcome + name + "!") == name
  {
    var s := welcome + name + "!";
    assert Text.ToLower(s)[..|WelcomePrefix|] == Text.ToLower(welcome);
    assert HasWelcome(s);
    assert s[|WelcomePrefix|..] == name + "!";
    var rest := name + "!";
    assert rest[0] != ' ' && !Text.IsSpace(rest[0]) by {
      if name != [] {
        assert rest[0] == name[0];
      }
    }
    Text.TrimOfTrimmed(rest);
    assert rest[..|rest| - 1] == name;
    Text.TrimOfTrimmed(name);
  }
}
