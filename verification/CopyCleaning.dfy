/** A body that is clean of URLs until it is cleaned
    (apps/api/src/commercial-promotion-copy-assembler.ts:104-113). */
module CopyCleaning {
  import opened Wrappers
  import opened CopyAssembler

  lemma {:induction false} OccursOnceAtEnd(before: string, part: string)
    requires part != "" && part[0] !in before
    ensures Occurrences(before + part, part) == 1
  {
    if before == "" {
      assert before + part == part && part[|part|..] == "";
    } else {
      assert (before + part)[0] == before[0];
      assert (before + part)[1..] == before[1..] + part;
      OccursOnceAtEnd(before[1..], part);
    }
  }

  lemma {:induction false} UnitsBound(s: string)
    ensures Units(s) <= 2 * |s|
  {
    if s != "" {
      UnitsBound(s[1..]);
    }
  }

  /** A platform whose cleaner closes up a space before a point, which joins a name to a
      domain, and whose URL pattern knows that domain. */
  const JOINING: Platform := Platform(
    (s: string) => if s == "Meia foo .com" then "Meia foo.com" else s,
    (s: string) => EndsWith(s, "foo.com"),
    (s: string) => false,
    (s: string) => true,
    (v: string) => Some("R$ 1,00"),
    (v: real) => None)

  const PLAIN_FACTS: Facts := Facts("Meia", "", "1", 0.0, false, None, None)

  lemma JoinThree(a: string, b: string, c: string)
    requires a != "" && b != "" && c != ""
    ensures JoinParts([a, b, c, ""]) == a + "\n\n" + (b + "\n\n" + c)
  {
    assert [a, b, c, ""][1..] == [b, c, ""] && [b, c, ""][1..] == [c, ""] && [c, ""][1..] == [""] && [""][1..] == [];
    assert JoinParts([""]) == "" && JoinParts([c, ""]) == c;
  }

  lemma JoinTwo(a: string, b: string)
    requires a != "" && b != ""
    ensures JoinParts([a, b]) == a + "\n\n" + b
  {
    assert [a, b][1..] == [b] && [b][1..] == [];
    assert JoinParts([b]) == b;
  }

  lemma JoiningIsWellFormatted()
    ensures IsWellFormatted(JOINING)
  {
    assert "R$ 1,00"[3..] == "1,00";
  }

  lemma JoiningMakesUrl()
    ensures !JOINING.hasUrl(JoinParts(["A", "Meia foo .com"]))
    ensures JOINING.hasUrl(JoinParts(["A", "Meia foo.com"]))
  {
    JoinTwo("A", "Meia foo .com");
    JoinTwo("A", "Meia foo.com");
    var raw := "A" + "\n\n" + "Meia foo .com";
    assert raw[|raw| - 7..][0] == 'o';
    var cleaned := "A" + "\n\n" + "Meia foo.com";
    assert cleaned[|cleaned| - 7..] == "foo.com";
  }

  lemma Reassociate(a: string, b: string, c: string, d: string)
    ensures a + (b + (c + d)) == (a + (b + c)) + d
  {
  }

  lemma NoSmallH()
    ensures 'h' !in CTA_PREFIX + " "
  {
    assert forall k | 0 <= k < |CTA_PREFIX| :: CTA_PREFIX[k] != 'h';
  }

  /** The message of a copy, up to its link. */
  function BeforeLink(mensagem: string): string {
    ("A" + "\n\n") + ((mensagem + "\n\n") + (CTA_PREFIX + " "))
  }

  lemma MessageEndsInLink(mensagem: string, link: string)
    requires mensagem != "" && link != ""
    ensures PublicMessage(Copy("A", mensagem, CTA_PREFIX + " " + link, "")) == BeforeLink(mensagem) + link
  {
    JoinThree("A", mensagem, (CTA_PREFIX + " ") + link);
    Reassociate("A" + "\n\n", mensagem + "\n\n", CTA_PREFIX + " ", link);
  }

  lemma NoSmallHBeforeLink(mensagem: string)
    requires 'h' !in mensagem
    ensures 'h' !in BeforeLink(mensagem)
  {
    NoSmallH();
  }

  lemma LinkOccursOnce(mensagem: string, link: string)
    requires link != "" && link[0] == 'h' && 'h' !in mensagem && mensagem != ""
    ensures Occurrences(PublicMessage(Copy("A", mensagem, CTA_PREFIX + " " + link, "")), link) == 1
  {
    MessageEndsInLink(mensagem, link);
    NoSmallHBeforeLink(mensagem);
    OccursOnceAtEnd(BeforeLink(mensagem), link);
  }

  lemma MessageIsShort(mensagem: string, link: string)
    requires mensagem != "" && link != "" && |mensagem| + |link| <= 400
    ensures Units(PublicMessage(Copy("A", mensagem, CTA_PREFIX + " " + link, ""))) <= 1000
  {
    MessageEndsInLink(mensagem, link);
    UnitsBound(BeforeLink(mensagem) + link);
  }

  lemma JoiningCleans()
    ensures JOINING.clean("Meia foo .com") == "Meia foo.com" && Units("Meia foo.com") <= BODY_MAX_LENGTH
  {
    UnitsBound("Meia foo.com");
  }

  lemma JoiningFacts()
    ensures TrustedOfferBlock(JOINING, PLAIN_FACTS) == Some(PRICE_PREFIX + "R$ 1,00")
    ensures !FactsContainUrl(JOINING, PLAIN_FACTS)
    ensures IsUsableLink(JOINING, "https://x")
  {
  }

  function JoinedCopy(): Copy {
    Copy("A", "Meia foo.com" + "\n" + (PRICE_PREFIX + "R$ 1,00"), CTA_PREFIX + " " + "https://x", "")
  }

  lemma JoinedCopyIsCounted()
    ensures LinksAreCounted(PublicMessage(JoinedCopy()), "https://x", PLAIN_FACTS)
    ensures Units(PublicMessage(JoinedCopy())) <= 1000
  {
    NoSmallHInMessage();
    LinkOccursOnce(JoinedCopy().mensagem, "https://x");
    MessageIsShort(JoinedCopy().mensagem, "https://x");
  }

  lemma JoiningIsComposed()
    ensures Assemble(JOINING, Output("A", "Meia foo .com"), PLAIN_FACTS, "https://x", 1000) == Assembled(JoinedCopy())
  {
    JoiningMakesUrl();
    JoiningCleans();
    JoiningFacts();
    JoinedCopyIsCounted();
    ComposesWhen(JOINING, Output("A", "Meia foo .com"), PLAIN_FACTS, "https://x", 1000, JoinedCopy());
  }

  /** Cleaning can make a URL: this copy is composed without complaint and is not safe. */
  lemma CleaningCanMakeUrl()
    ensures IsWellFormatted(JOINING)
    ensures var result := Assemble(JOINING, Output("A", "Meia foo .com"), PLAIN_FACTS, "https://x", 1000);
            result.Assembled? && !IsSafe(JOINING, result.copy, "https://x", PLAIN_FACTS, 1000)
  {
    JoiningIsWellFormatted();
    JoiningMakesUrl();
    JoiningCleans();
    JoiningIsComposed();
    ComposedIsSafe(JOINING, Output("A", "Meia foo .com"), PLAIN_FACTS, "https://x", 1000);
  }

  lemma NoSmallHInMessage()
    ensures 'h' !in "Meia foo.com" + "\n" + (PRICE_PREFIX + "R$ 1,00")
  {
  }
}
