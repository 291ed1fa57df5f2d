/** The local stand-in for an answering service: a reply chosen by the first keyword group, in a
    fixed order, that the lower-cased question mentions. */
module BotResponseUtils {

  /** The six replies, named after the rule that produces each. */
  datatype Reply = Greeting | Courtesy | IdentityDocuments | Taxes | Rephrase | Fallback

  /** The text of each reply. */
  function Wording(r: Reply): string {
    match r
    case Greeting => "Bonjour ! Comment puis-je vous aider aujourd'hui ?"
    case Courtesy => "Je vous en prie. Y a-t-il autre chose que je peux faire pour vous ?"
    case IdentityDocuments => "Pour les questions concernant les cartes d'identité et les passeports, je vous invite à consulter le site service-public.fr ou à contacter votre mairie. Vous avez besoin de formulaires spécifiques et de pièces justificatives."
    case Taxes => "Pour les questions fiscales, je vous recommande de consulter le site impots.gouv.fr ou de contacter votre centre des finances publiques local. Vous pourrez y trouver des informations sur les déclarations, les paiements et les déductions fiscales."
    case Rephrase => "Je vais essayer de reformuler votre demande. Pourriez-vous me préciser quel aspect vous souhaitez que je reformule ?"
    case Fallback => "Merci pour votre question. Pour obtenir des informations précises sur ce sujet, je vous invite à consulter le site service-public.fr ou à contacter directement le service administratif concerné. Avez-vous besoin d'autres renseignements ?"
  }

  /** `toLowerCase` on one character, for the ASCII and Latin-1 capitals
      (U+00C0 to U+00DE except the multiplication sign U+00D7); every other character is kept. */
  function LowerChar(c: char): (r: char)
    ensures 'A' <= c <= 'Z' ==> 'a' <= r <= 'z' && r as int == c as int + 32
    ensures 'À' <= c <= 'Þ' && c != '×' ==> r as int == c as int + 32
    ensures !('A' <= c <= 'Z') && !('À' <= c <= 'Þ' && c != '×') ==> r == c
  {
    if 'A' <= c <= 'Z' then (c as int + 32) as char
    else if 'À' <= c <= 'Þ' && c != '×' then (c as int + 32) as char
    else c
  }

  /** `s.toLowerCase()`, character by character. */
  function Lower(s: string): (r: string)
    ensures |r| == |s|
    ensures forall i :: 0 <= i < |s| ==> r[i] == LowerChar(s[i])
  {
    seq(|s|, i requires 0 <= i < |s| => LowerChar(s[i]))
  }

  /** Lower-casing twice is lower-casing once. */
  lemma LowerIdempotent(s: string)
    ensures Lower(Lower(s)) == Lower(s)
  {
  }

  /** Lower-casing commutes with concatenation. */
  lemma LowerAppend(a: string, b: string)
    ensures Lower(a + b) == Lower(a) + Lower(b)
  {
  }

  predicate StartsWith(s: string, prefix: string) {
    |prefix| <= |s| && s[..|prefix|] == prefix
  }

  /** `s.includes(sub)`: `sub` occurs in `s` at some position. */
  predicate Includes(s: string, sub: string)
    ensures Includes(s, sub) ==> |sub| <= |s|
    decreases |s|
  {
    StartsWith(s, sub) || (|s| > 0 && Includes(s[1..], sub))
  }

  /** An occurrence at position `i` makes `includes` true. */
  lemma {:induction false} IncludesAt(s: string, sub: string, i: nat)
    requires i + |sub| <= |s| && s[i..i + |sub|] == sub
    ensures Includes(s, sub)
  {
    if i > 0 {
      assert s[1..][i - 1..i - 1 + |sub|] == s[i..i + |sub|];
      IncludesAt(s[1..], sub, i - 1);
    }
  }

  /** When `includes` is true, an occurrence sits at some position `i`. */
  lemma {:induction false} IncludesWitness(s: string, sub: string) returns (i: nat)
    requires Includes(s, sub)
    ensures i + |sub| <= |s| && s[i..i + |sub|] == sub
    decreases |s|
  {
    if StartsWith(s, sub) {
      i := 0;
    } else {
      var j := IncludesWitness(s[1..], sub);
      assert s[1..][j..j + |sub|] == s[j + 1..j + 1 + |sub|];
      i := j + 1;
    }
  }

  /** Text around an occurrence does not hide it. */
  lemma IncludesInfix(before: string, s: string, after: string, sub: string)
    requires Includes(s, sub)
    ensures Includes(before + s + after, sub)
  {
    var i := IncludesWitness(s, sub);
    var t := before + s + after;
    assert t[|before| + i..|before| + i + |sub|] == s[i..i + |sub|];
    IncludesAt(t, sub, |before| + i);
  }

  // The keyword groups, looked for in the lower-cased question, in the order the dispatch tries them.
  predicate MentionsGreeting(m: string) { Includes(m, "bonjour") || Includes(m, "salut") }
  predicate MentionsThanks(m: string) { Includes(m, "merci") }
  predicate MentionsIdentityDocuments(m: string) { Includes(m, "carte d'identité") || Includes(m, "passeport") }
  predicate MentionsTaxes(m: string) { Includes(m, "impôt") || Includes(m, "taxe") }
  predicate MentionsRephrase(m: string) { Includes(m, "reformuler") }

  /** The rule that answers a question, tried in order on its lower-cased text. */
  function ChosenReply(userMessage: string): Reply
  {
    var m := Lower(userMessage);
    if MentionsGreeting(m) then Greeting
    else if MentionsThanks(m) then Courtesy
    else if MentionsIdentityDocuments(m) then IdentityDocuments
    else if MentionsTaxes(m) then Taxes
    else if MentionsRephrase(m) then Rephrase
    else Fallback
  }

  /** `getBotResponse`: the text of the rule that answers the question. */
  function GetBotResponse(userMessage: string): (r: string)
    ensures r == Wording(ChosenReply(Lower(userMessage)))
  {
    CaseInsensitive(userMessage, userMessage);
    Wording(ChosenReply(userMessage))
  }

  /** The reply depends only on the lower-cased question. */
  lemma CaseInsensitive(a: string, b: string)
    requires Lower(a) == Lower(b)
    ensures ChosenReply(a) == ChosenReply(b)
    ensures ChosenReply(Lower(a)) == ChosenReply(a)
  {
    LowerIdempotent(a);
  }

  /** A greeting keyword wins over every other keyword. */
  lemma GreetingRule(m: string)
    ensures ChosenReply(m) == Greeting <==> MentionsGreeting(Lower(m))
  {
  }

  /** "merci" gives the courtesy reply exactly when no greeting keyword is present. */
  lemma ThanksRule(m: string)
    ensures ChosenReply(m) == Courtesy <==> !MentionsGreeting(Lower(m)) && MentionsThanks(Lower(m))
  {
  }

  /** The identity-document rule is tried before the tax rule: a question naming both gets the
      identity-document reply, and the tax reply needs no earlier keyword. */
  lemma IdentityBeforeTaxes(m: string)
    ensures var l := Lower(m);
      ChosenReply(m) == IdentityDocuments <==>
        !MentionsGreeting(l) && !MentionsThanks(l) && MentionsIdentityDocuments(l)
    ensures var l := Lower(m);
      ChosenReply(m) == Taxes <==>
        !MentionsGreeting(l) && !MentionsThanks(l) && !MentionsIdentityDocuments(l) && MentionsTaxes(l)
  {
  }

  /** "reformuler" gives its reply only when none of the earlier keywords matched; the default
      reply comes exactly when nothing matched. */
  lemma LastRules(m: string)
    ensures var l := Lower(m);
      ChosenReply(m) == Rephrase <==>
        !MentionsGreeting(l) && !MentionsThanks(l) && !MentionsIdentityDocuments(l) && !MentionsTaxes(l) &&
        MentionsRephrase(l)
    ensures var l := Lower(m);
      ChosenReply(m) == Fallback <==>
        !MentionsGreeting(l) && !MentionsThanks(l) && !MentionsIdentityDocuments(l) && !MentionsTaxes(l) &&
        !MentionsRephrase(l)
  {
  }

  /** Whatever is written around a greeting, the reply stays the greeting. */
  lemma GreetingDominates(before: string, m: string, after: string)
    requires MentionsGreeting(Lower(m))
    ensures ChosenReply(before + m + after) == Greeting
  {
    LowerAppend(before + m, after);
    LowerAppend(before, m);
    if Includes(Lower(m), "bonjour") {
      IncludesInfix(Lower(before), Lower(m), Lower(after), "bonjour");
    } else {
      IncludesInfix(Lower(before), Lower(m), Lower(after), "salut");
    }
  }
}
