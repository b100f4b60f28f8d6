/** Composing a message from a headline and a body, and reading them back
    (apps/api/src/commercial-promotion-copy-assembler.ts).

    Strings are sequences of code points; lengths are counted in UTF-16 units, as the
    program counts them. */
module CopyAssembler {
  import opened Wrappers

  const BODY_MAX_LENGTH: nat := 100
  const CTA_PREFIX: string := "\U{1F6D2} Compre aqui:"
  const FOOTER_PREFIX: string := "\U{1F4CE} Encaminhe para um amigo participar do grupo:"
  const PRICE_PREFIX: string := "\U{1F525} POR: "
  const DISCOUNT_PREFIX: string := "\U{1F4B8} "
  const DISCOUNT_SUFFIX: string := "% OFF"
  const INVITE_PREFIX: string := "https://chat.whatsapp.com/"

  datatype Output = Output(headline: string, body: string)

  datatype Copy = Copy(titulo: string, mensagem: string, cta: string, hashtags: string)

  datatype Facts = Facts(
    productName: string,
    shopName: string,
    price: string,
    discountRate: real,
    priceDropped: bool,
    priceDropPercent: Option<real>,
    groupInviteUrl: Option<string>)

  /** The parts taken as given: the body cleaner, two URL patterns, the URL parser and the
      number formats, where `None` stands for the error on an invalid number. */
  datatype Platform = Platform(
    clean: string -> string,
    hasUrl: string -> bool,
    hasFactUrl: string -> bool,
    parsesAsHttp: string -> bool,
    currency: string -> Option<string>,
    percent: real -> Option<string>)

  // ---------------------------------------------------------------------------
  // Characters
  // ---------------------------------------------------------------------------

  function Units(s: string): nat {
    if s == "" then 0 else (if s[0] as int >= 0x1_0000 then 2 else 1) + Units(s[1..])
  }

  predicate IsControl(c: char) {
    c as int <= 0x1F || c as int == 0x7F
  }

  predicate HasControl(s: string) {
    exists k :: 0 <= k < |s| && IsControl(s[k])
  }

  /** Line feeds and carriage returns are allowed inside a message. */
  predicate HasUnsafeControl(s: string) {
    exists k :: 0 <= k < |s| && IsControl(s[k]) && s[k] != '\n' && s[k] != '\r'
  }

  predicate IsSpace(c: char) {
    var n := c as int;
    || 0x9 <= n <= 0xD || n == 0x20 || n == 0xA0 || n == 0x1680 || 0x2000 <= n <= 0x200A
    || n == 0x2028 || n == 0x2029 || n == 0x202F || n == 0x205F || n == 0x3000 || n == 0xFEFF
  }

  function TrimStart(s: string): string {
    if s != "" && IsSpace(s[0]) then TrimStart(s[1..]) else s
  }

  function TrimEnd(s: string): string {
    if s != "" && IsSpace(s[|s| - 1]) then TrimEnd(s[..|s| - 1]) else s
  }

  function Trim(s: string): string {
    TrimEnd(TrimStart(s))
  }

  predicate StartsWith(s: string, prefix: string) {
    prefix <= s
  }

  predicate EndsWith(s: string, suffix: string) {
    |suffix| <= |s| && s[|s| - |suffix|..] == suffix
  }

  /** Occurrences that do not overlap, from left to right. */
  function Occurrences(s: string, part: string): nat {
    if part == "" || |s| < |part| then 0
    else if StartsWith(s, part) then 1 + Occurrences(s[|part|..], part)
    else Occurrences(s[1..], part)
  }

  // ---------------------------------------------------------------------------
  // The shapes of the trusted lines
  // ---------------------------------------------------------------------------

  predicate IsDigit(c: char) {
    '0' <= c <= '9'
  }

  /** Groups of digits, a comma and two digits. */
  predicate IsAmount(s: string) {
    && |s| >= 4
    && s[|s| - 3] == ',' && IsDigit(s[|s| - 2]) && IsDigit(s[|s| - 1])
    && forall k | 0 <= k < |s| - 3 :: IsDigit(s[k]) || s[k] == '.'
  }

  predicate IsCurrency(s: string) {
    StartsWith(s, "R$ ") && IsAmount(s[3..])
  }

  predicate IsNumber(s: string) {
    s != "" && forall k | 0 <= k < |s| :: IsDigit(s[k]) || s[k] == '.' || s[k] == ','
  }

  predicate IsPriceLine(s: string) {
    StartsWith(s, PRICE_PREFIX) && IsCurrency(s[|PRICE_PREFIX|..])
  }

  predicate IsDiscountLine(s: string) {
    && |s| >= |DISCOUNT_PREFIX| + |DISCOUNT_SUFFIX|
    && StartsWith(s, DISCOUNT_PREFIX) && EndsWith(s, DISCOUNT_SUFFIX)
    && IsNumber(s[|DISCOUNT_PREFIX|..|s| - |DISCOUNT_SUFFIX|])
  }

  /** A line break, a price and perhaps a discount line, and nothing more. */
  predicate IsOfferBlock(s: string) {
    && StartsWith(s, "\n")
    && (|| IsPriceLine(s[1..])
        || exists k :: 1 <= k < |s| && s[k] == '\n' && IsPriceLine(s[1..k]) && IsDiscountLine(s[k + 1..]))
  }

  /** The formats of the platform look like amounts and numbers. */
  ghost predicate IsWellFormatted(p: Platform) {
    && (forall v :: p.currency(v).Some? ==> IsCurrency(p.currency(v).value))
    && (forall v :: p.percent(v).Some? ==> IsNumber(p.percent(v).value))
  }

  // ---------------------------------------------------------------------------
  // Composing
  // ---------------------------------------------------------------------------

  predicate IsInvite(url: string) {
    && StartsWith(url, INVITE_PREFIX) && |url| > |INVITE_PREFIX|
    && forall k | |INVITE_PREFIX| <= k < |url| ::
         IsDigit(url[k]) || 'a' <= url[k] <= 'z' || 'A' <= url[k] <= 'Z' || url[k] == '_' || url[k] == '-'
  }

  function TrustedInvite(f: Facts): Option<string> {
    if f.groupInviteUrl.Some? && IsInvite(f.groupInviteUrl.value) then f.groupInviteUrl else None
  }

  function TrustedFooter(f: Facts): string {
    if TrustedInvite(f).Some? then FOOTER_PREFIX + " " + TrustedInvite(f).value else ""
  }

  /** `None` stands for the error on an invalid fact. */
  function TrustedOfferBlock(p: Platform, f: Facts): Option<string> {
    if f.priceDropped && (f.priceDropPercent.None? || p.percent(f.priceDropPercent.value).None?) then None
    else if p.currency(f.price).None? then None
    else
      var priceLine := PRICE_PREFIX + p.currency(f.price).value;
      if f.discountRate <= 0.0 then Some(priceLine)
      else if p.percent(f.discountRate).None? then None
      else Some(priceLine + "\n" + DISCOUNT_PREFIX + p.percent(f.discountRate).value + DISCOUNT_SUFFIX)
  }

  /** The parts that are not empty, a blank line between them. */
  function JoinParts(parts: seq<string>): string {
    if parts == [] then ""
    else
      var rest := JoinParts(parts[1..]);
      if parts[0] == "" then rest else if rest == "" then parts[0] else parts[0] + "\n\n" + rest
  }

  function PublicMessage(c: Copy): string {
    JoinParts([c.titulo, c.mensagem, c.cta, c.hashtags])
  }

  predicate FactsContainUrl(p: Platform, f: Facts) {
    p.hasFactUrl(f.productName) || p.hasFactUrl(f.shopName)
  }

  predicate IsUsableLink(p: Platform, link: string) {
    !HasControl(link) && p.parsesAsHttp(link)
  }

  /** The link and the invite appear as often as they should. */
  predicate LinksAreCounted(message: string, link: string, f: Facts) {
    && Occurrences(message, link) == 1
    && (TrustedInvite(f).Some? ==> Occurrences(message, TrustedInvite(f).value) == 1)
  }

  datatype Error = AffiliateLinkRequired | UrlInvalid | FactsInvalid | BodyTooLong | TooLong

  datatype Result = Assembled(copy: Copy) | Failed(error: Error)

  function Assemble(p: Platform, output: Output, f: Facts, link: string, maximumLength: nat): Result {
    if !IsUsableLink(p, link) then Failed(AffiliateLinkRequired)
    else if FactsContainUrl(p, f) || p.hasUrl(JoinParts([output.headline, output.body])) then Failed(UrlInvalid)
    else if TrustedOfferBlock(p, f).None? then Failed(FactsInvalid)
    else if Units(p.clean(output.body)) > BODY_MAX_LENGTH then Failed(BodyTooLong)
    else
      var copy := Copy(output.headline,
                       p.clean(output.body) + "\n" + TrustedOfferBlock(p, f).value,
                       CTA_PREFIX + " " + link,
                       TrustedFooter(f));
      if !LinksAreCounted(PublicMessage(copy), link, f) then Failed(UrlInvalid)
      else if Units(PublicMessage(copy)) > maximumLength then Failed(TooLong)
      else Assembled(copy)
  }

  // ---------------------------------------------------------------------------
  // The safety check
  // ---------------------------------------------------------------------------

  /** The headline and body a stored copy carries, if its other parts are as expected. */
  function CachedMessage(p: Platform, c: Copy, link: string, f: Facts): Option<string> {
    var block := TrustedOfferBlock(p, f);
    if block.None? then None
    else
      var suffix := "\n" + block.value;
      if !EndsWith(c.mensagem, suffix) || c.cta != CTA_PREFIX + " " + link || c.hashtags != TrustedFooter(f) then None
      else
        var body := c.mensagem[..|c.mensagem| - |suffix|];
        if Units(body) > BODY_MAX_LENGTH then None else Some(JoinParts([c.titulo, body, "", ""]))
  }

  predicate IsSafe(p: Platform, c: Copy, link: string, f: Facts, maximumLength: nat) {
    && IsUsableLink(p, link)
    && !FactsContainUrl(p, f)
    && Units(PublicMessage(c)) <= maximumLength
    && LinksAreCounted(PublicMessage(c), link, f)
    && var message := CachedMessage(p, c, link, f);
       message.Some? && !p.hasUrl(message.value)
  }

  // ---------------------------------------------------------------------------
  // Reading back
  // ---------------------------------------------------------------------------

  /** Where the first offer block that ends the message starts. */
  function OfferStart(m: string, from: nat): (r: Option<nat>)
    ensures r.Some? ==> from <= r.value < |m| && IsOfferBlock(m[r.value..])
    ensures forall k | from <= k < (if r.Some? then r.value else |m|) :: !IsOfferBlock(m[k..])
    decreases |m| - from
  {
    if from >= |m| then None
    else if IsOfferBlock(m[from..]) then Some(from)
    else OfferStart(m, from + 1)
  }

  predicate IsHttpLink(link: string) {
    && (exists scheme :: scheme in ["http://", "https://"] && StartsWith(link, scheme) && |link| > |scheme|)
    && forall k | 0 <= k < |link| :: !IsSpace(link[k])
  }

  predicate IsCachedCta(cta: string) {
    StartsWith(cta, CTA_PREFIX + " ") && IsHttpLink(cta[|CTA_PREFIX| + 1..])
  }

  predicate IsCachedFooter(footer: string) {
    footer == "" || (StartsWith(footer, FOOTER_PREFIX + " ") && IsInvite(footer[|FOOTER_PREFIX| + 1..]))
  }

  function Extract(c: Copy): Option<Output> {
    if c.titulo == "" || HasControl(c.titulo) || HasUnsafeControl(c.mensagem)
       || HasControl(c.cta) || HasControl(c.hashtags) then None
    else
      var start := OfferStart(c.mensagem, 0);
      if start.None? || !IsCachedCta(c.cta) || !IsCachedFooter(c.hashtags) then None
      else
        var body := Trim(c.mensagem[..start.value]);
        if body == "" || Units(body) > BODY_MAX_LENGTH then None else Some(Output(c.titulo, body))
  }

  // ---------------------------------------------------------------------------
  // What is composed is accepted
  // ---------------------------------------------------------------------------

  lemma JoinPair(a: string, b: string)
    ensures JoinParts([a, b, "", ""]) == JoinParts([a, b])
  {
    assert [a, b, "", ""][1..] == [b, "", ""] && [b, "", ""][1..] == ["", ""] && ["", ""][1..] == [""];
    assert [a, b][1..] == [b] && [b][1..] == [] && [""][1..] == [];
    assert JoinParts([""]) == "" && JoinParts(["", ""]) == "";
    assert JoinParts([b, "", ""]) == b && JoinParts([b]) == b;
  }

  /** A copy just composed is safe exactly when cleaning its body made no URL: every other
      check of the safety test was already made. */
  lemma ComposedIsSafe(p: Platform, output: Output, f: Facts, link: string, maximumLength: nat)
    requires Assemble(p, output, f, link, maximumLength).Assembled?
    ensures var copy := Assemble(p, output, f, link, maximumLength).copy;
            IsSafe(p, copy, link, f, maximumLength) <==> !p.hasUrl(JoinParts([output.headline, p.clean(output.body)]))
  {
    var copy := Assemble(p, output, f, link, maximumLength).copy;
    var body, suffix := p.clean(output.body), "\n" + TrustedOfferBlock(p, f).value;
    assert copy.mensagem == body + suffix;
    assert copy.mensagem[|copy.mensagem| - |suffix|..] == suffix;
    assert copy.mensagem[..|copy.mensagem| - |suffix|] == body;
    JoinPair(output.headline, body);
  }

  /** Composing succeeds when each check passes. */
  lemma ComposesWhen(p: Platform, output: Output, f: Facts, link: string, maximumLength: nat, copy: Copy)
    requires IsUsableLink(p, link) && !FactsContainUrl(p, f)
    requires !p.hasUrl(JoinParts([output.headline, output.body]))
    requires TrustedOfferBlock(p, f).Some? && Units(p.clean(output.body)) <= BODY_MAX_LENGTH
    requires copy == Copy(output.headline, p.clean(output.body) + "\n" + TrustedOfferBlock(p, f).value,
                          CTA_PREFIX + " " + link, TrustedFooter(f))
    requires LinksAreCounted(PublicMessage(copy), link, f) && Units(PublicMessage(copy)) <= maximumLength
    ensures Assemble(p, output, f, link, maximumLength) == Assembled(copy)
  {
  }

  // ---------------------------------------------------------------------------
  // What is composed can be read back
  // ---------------------------------------------------------------------------

  predicate HasBreak(s: string) {
    '\n' in s
  }

  lemma PriceLineIsOneLine(s: string)
    requires IsPriceLine(s)
    ensures !HasBreak(s) && !HasControl(s) && s != "" && s[0] == PRICE_PREFIX[0]
  {
    var n := |PRICE_PREFIX|;
    forall k | 0 <= k < |s| ensures !IsControl(s[k]) {
      if k < n {
        assert s[k] == PRICE_PREFIX[k];
      } else {
        var c := s[n..];
        assert s[k] == c[k - n];
        if k - n < 3 {
          assert c[k - n] == "R$ "[k - n];
        } else {
          var a := c[3..];
          assert c[k - n] == a[k - n - 3];
        }
      }
    }
  }

  lemma DiscountLineIsOneLine(s: string)
    requires IsDiscountLine(s)
    ensures !HasBreak(s) && !HasControl(s) && s != "" && s[0] == DISCOUNT_PREFIX[0]
  {
    var n, m := |DISCOUNT_PREFIX|, |s| - |DISCOUNT_SUFFIX|;
    forall k | 0 <= k < |s| ensures !IsControl(s[k]) {
      if k < n {
        assert s[k] == DISCOUNT_PREFIX[k];
      } else if k < m {
        assert s[k] == s[n..m][k - n];
      } else {
        assert s[k] == s[m..][k - m];
      }
    }
  }

  /** The block of trusted lines is a price line, or a price and a discount line. */
  lemma BlockShape(p: Platform, f: Facts) returns (priceLine: string, discountLine: Option<string>)
    requires IsWellFormatted(p) && TrustedOfferBlock(p, f).Some?
    ensures IsPriceLine(priceLine) && (discountLine.Some? ==> IsDiscountLine(discountLine.value))
    ensures TrustedOfferBlock(p, f).value
         == if discountLine.None? then priceLine else priceLine + "\n" + discountLine.value
  {
    var amount := p.currency(f.price).value;
    priceLine := PRICE_PREFIX + amount;
    assert priceLine[|PRICE_PREFIX|..] == amount;
    if f.discountRate <= 0.0 {
      discountLine := None;
    } else {
      var number := p.percent(f.discountRate).value;
      var line := DISCOUNT_PREFIX + number + DISCOUNT_SUFFIX;
      assert line[|DISCOUNT_PREFIX|..|line| - |DISCOUNT_SUFFIX|] == number;
      assert line[|line| - |DISCOUNT_SUFFIX|..] == DISCOUNT_SUFFIX;
      assert TrustedOfferBlock(p, f).value == priceLine + "\n" + line;
      discountLine := Some(line);
    }
  }

  predicate IsLastBreak(m: string, a: nat) {
    a < |m| && m[a] == '\n' && !HasBreak(m[a + 1..])
  }

  lemma LastBreakIsUnique(m: string, a: nat, b: nat)
    requires IsLastBreak(m, a) && IsLastBreak(m, b)
    ensures a == b
  {
  }

  /** Where a block's last line starts: at once, or after a price line. */
  lemma LastLineOfBlock(s: string) returns (k: nat)
    requires IsOfferBlock(s)
    ensures s[0] == '\n' && IsLastBreak(s, k) && k + 1 < |s|
    ensures k == 0 ==> s[k + 1] == PRICE_PREFIX[0]
    ensures k > 0 ==> s[k + 1] == DISCOUNT_PREFIX[0] && !HasBreak(s[1..k])
  {
    if IsPriceLine(s[1..]) {
      PriceLineIsOneLine(s[1..]);
      k := 0;
    } else {
      k :| 1 <= k < |s| && s[k] == '\n' && IsPriceLine(s[1..k]) && IsDiscountLine(s[k + 1..]);
      PriceLineIsOneLine(s[1..k]);
      DiscountLineIsOneLine(s[k + 1..]);
    }
  }

  lemma LastBreakOfTail(m: string, i: nat, k: nat)
    requires i <= |m| && IsLastBreak(m[i..], k)
    ensures IsLastBreak(m, i + k)
  {
    assert m[i..][k + 1..] == m[i + k + 1..];
  }

  /** After a body and a break, one price line is the only block there is. */
  lemma OnePriceLineIsFound(body: string, line: string, i: nat)
    requires IsPriceLine(line) && i < |body + "\n" + line| && IsOfferBlock((body + "\n" + line)[i..])
    ensures i == |body|
  {
    var m := body + "\n" + line;
    PriceLineIsOneLine(line);
    assert m[|body| + 1..] == line;
    var k := LastLineOfBlock(m[i..]);
    LastBreakOfTail(m, i, k);
    LastBreakIsUnique(m, i + k, |body|);
  }

  lemma PriceAndDiscountAreFound(body: string, line: string, discount: string, m: string, i: nat)
    requires IsPriceLine(line) && IsDiscountLine(discount)
    requires m == (body + "\n" + line) + "\n" + discount
    requires i < |m| && IsOfferBlock(m[i..])
    ensures i == |body|
  {
    var front := body + "\n" + line;
    PriceLineIsOneLine(line);
    DiscountLineIsOneLine(discount);
    assert m[|front| + 1..] == discount;
    var k := LastLineOfBlock(m[i..]);
    LastBreakOfTail(m, i, k);
    LastBreakIsUnique(m, i + k, |front|);
    assert m[i + k + 1] == DISCOUNT_PREFIX[0];
    assert front[i + 1..] == m[i..][1..k] && front[|body| + 1..] == line;
    LastBreakIsUnique(front, i, |body|);
  }

  lemma BlockIsBlock(line: string, discount: Option<string>)
    requires IsPriceLine(line) && (discount.Some? ==> IsDiscountLine(discount.value))
    ensures IsOfferBlock("\n" + if discount.None? then line else line + "\n" + discount.value)
  {
    if discount.None? {
      assert ("\n" + line)[1..] == line;
    } else {
      var s := "\n" + (line + "\n" + discount.value);
      var k := |line| + 1;
      assert s[k] == '\n' && s[1..k] == line && s[k + 1..] == discount.value;
    }
  }

  lemma OnlyBlockIsFound(m: string, n: nat)
    requires n < |m| && IsOfferBlock(m[n..])
    requires forall i | 0 <= i < |m| && IsOfferBlock(m[i..]) :: i == n
    ensures OfferStart(m, 0) == Some(n)
  {
    var found := OfferStart(m, 0);
  }

  lemma PriceBlockIsFound(body: string, line: string)
    requires IsPriceLine(line)
    ensures OfferStart(body + "\n" + line, 0) == Some(|body|)
  {
    var m := body + "\n" + line;
    BlockIsBlock(line, None);
    assert m[|body|..] == "\n" + line;
    forall i | 0 <= i < |m| && IsOfferBlock(m[i..]) ensures i == |body| {
      OnePriceLineIsFound(body, line, i);
    }
    OnlyBlockIsFound(m, |body|);
  }

  lemma DiscountBlockIsFound(body: string, line: string, discount: string, m: string)
    requires IsPriceLine(line) && IsDiscountLine(discount)
    requires m == (body + "\n" + line) + "\n" + discount
    ensures OfferStart(m, 0) == Some(|body|)
  {
    BlockIsBlock(line, Some(discount));
    assert m[|body|..] == "\n" + (line + "\n" + discount);
    forall i | 0 <= i < |m| && IsOfferBlock(m[i..]) ensures i == |body| {
      PriceAndDiscountAreFound(body, line, discount, m, i);
    }
    OnlyBlockIsFound(m, |body|);
  }

  lemma Regroup(a: string, b: string, c: string, d: string, e: string)
    ensures a + b + (c + d + e) == (a + b + c) + d + e
  {
  }

  /** Reading finds the trusted block exactly where it was added, whatever the body holds. */
  lemma BlockIsFound(p: Platform, f: Facts, body: string)
    requires IsWellFormatted(p) && TrustedOfferBlock(p, f).Some?
    ensures OfferStart(body + "\n" + TrustedOfferBlock(p, f).value, 0) == Some(|body|)
  {
    var line, discount := BlockShape(p, f);
    if discount.None? {
      PriceBlockIsFound(body, line);
    } else {
      Regroup(body, "\n", line, "\n", discount.value);
      DiscountBlockIsFound(body, line, discount.value, (body + "\n" + line) + "\n" + discount.value);
    }
  }

  lemma {:induction false} PrefixUnits(s: string, n: nat)
    requires n <= |s|
    ensures Units(s[..n]) <= Units(s)
  {
    if n > 0 {
      PrefixUnits(s[1..], n - 1);
      assert s[..n][1..] == s[1..][..n - 1];
    }
  }

  lemma {:induction false} TrimEndShortens(s: string)
    ensures Units(TrimEnd(s)) <= Units(s)
  {
    if s != "" && IsSpace(s[|s| - 1]) {
      TrimEndShortens(s[..|s| - 1]);
      PrefixUnits(s, |s| - 1);
    }
  }

  lemma {:induction false} TrimStartShortens(s: string)
    ensures Units(TrimStart(s)) <= Units(s)
  {
    if s != "" && IsSpace(s[0]) {
      TrimStartShortens(s[1..]);
    }
  }

  lemma ControlOfSum(s: string, t: string)
    ensures HasControl(s + t) <==> HasControl(s) || HasControl(t)
    ensures HasUnsafeControl(s + t) <==> HasUnsafeControl(s) || HasUnsafeControl(t)
  {
    var u := s + t;
    assert forall k | 0 <= k < |s| :: u[k] == s[k];
    assert forall k | 0 <= k < |t| :: u[|s| + k] == t[k];
    assert forall k | |s| <= k < |u| :: u[k] == t[k - |s|];
  }

  /** The trusted lines hold no control character but their line breaks. */
  lemma BlockIsPrintable(p: Platform, f: Facts, body: string)
    requires IsWellFormatted(p) && TrustedOfferBlock(p, f).Some?
    ensures HasUnsafeControl(body + "\n" + TrustedOfferBlock(p, f).value) <==> HasUnsafeControl(body)
  {
    var line, discount := BlockShape(p, f);
    PriceLineIsOneLine(line);
    ControlOfSum(body, "\n");
    ControlOfSum(body + "\n", TrustedOfferBlock(p, f).value);
    if discount.Some? {
      DiscountLineIsOneLine(discount.value);
      ControlOfSum(line, "\n");
      ControlOfSum(line + "\n", discount.value);
    }
  }

  lemma CtaReadsBack(link: string)
    requires !HasControl(link)
    ensures !HasControl(CTA_PREFIX + " " + link)
    ensures IsCachedCta(CTA_PREFIX + " " + link) <==> IsHttpLink(link)
  {
    assert (CTA_PREFIX + " " + link)[|CTA_PREFIX| + 1..] == link;
    ControlOfSum(CTA_PREFIX + " ", link);
  }

  lemma FooterPrefixInParts()
    ensures FOOTER_PREFIX == "\U{1F4CE} Encaminhe para um" + " amigo participar do grupo:"
  {
  }

  lemma FooterWordsArePrintable()
    ensures !HasControl("\U{1F4CE} Encaminhe para um" + " amigo participar do grupo:")
  {
    ControlOfSum("\U{1F4CE} Encaminhe para um", " amigo participar do grupo:");
  }

  lemma FooterPrefixIsPrintable()
    ensures !HasControl(FOOTER_PREFIX + " ")
  {
    FooterPrefixInParts();
    FooterWordsArePrintable();
    ControlOfSum(FOOTER_PREFIX, " ");
  }

  lemma InviteIsPrintable(invite: string)
    requires IsInvite(invite)
    ensures !HasControl(invite)
  {
    ControlOfSum(INVITE_PREFIX, invite[|INVITE_PREFIX|..]);
    assert invite == INVITE_PREFIX + invite[|INVITE_PREFIX|..];
  }

  lemma FooterReadsBack(f: Facts)
    ensures !HasControl(TrustedFooter(f)) && IsCachedFooter(TrustedFooter(f))
  {
    if TrustedInvite(f).Some? {
      var invite := TrustedInvite(f).value;
      FooterPrefixIsPrintable();
      InviteIsPrintable(invite);
      ControlOfSum(FOOTER_PREFIX + " ", invite);
      assert (FOOTER_PREFIX + " " + invite)[|FOOTER_PREFIX| + 1..] == invite;
    }
  }

  /** What the reader needs of a headline, a cleaned body and a link. */
  predicate IsReadable(headline: string, body: string, link: string) {
    && headline != "" && !HasControl(headline)
    && Trim(body) != "" && !HasUnsafeControl(body)
    && IsHttpLink(link)
  }

  lemma ExtractOfParts(headline: string, body: string, block: string, cta: string, footer: string, link: string)
    requires OfferStart(body + "\n" + block, 0) == Some(|body|)
    requires HasUnsafeControl(body + "\n" + block) <==> HasUnsafeControl(body)
    requires !HasControl(cta) && !HasControl(footer)
    requires (IsCachedCta(cta) <==> IsHttpLink(link)) && IsCachedFooter(footer)
    requires Units(Trim(body)) <= BODY_MAX_LENGTH
    ensures Extract(Copy(headline, body + "\n" + block, cta, footer))
         == if IsReadable(headline, body, link) then Some(Output(headline, Trim(body))) else None
  {
    assert (body + "\n" + block)[..|body|] == body;
  }

  lemma TrimShortens(s: string)
    ensures Units(Trim(s)) <= Units(s)
  {
    TrimStartShortens(s);
    TrimEndShortens(TrimStart(s));
  }

  lemma PartsReadBack(p: Platform, headline: string, body: string, f: Facts, link: string)
    requires IsWellFormatted(p) && TrustedOfferBlock(p, f).Some?
    requires !HasControl(link) && Units(body) <= BODY_MAX_LENGTH
    ensures Extract(Copy(headline, body + "\n" + TrustedOfferBlock(p, f).value, CTA_PREFIX + " " + link, TrustedFooter(f)))
         == if IsReadable(headline, body, link) then Some(Output(headline, Trim(body))) else None
  {
    BlockIsFound(p, f, body);
    BlockIsPrintable(p, f, body);
    CtaReadsBack(link);
    FooterReadsBack(f);
    TrimShortens(body);
    ExtractOfParts(headline, body, TrustedOfferBlock(p, f).value, CTA_PREFIX + " " + link, TrustedFooter(f), link);
  }

  /** A composed copy is read back exactly when its headline, cleaned body and link are
      readable, and then as that headline and that body, trimmed. */
  lemma ComposedReadsBack(p: Platform, output: Output, f: Facts, link: string, maximumLength: nat)
    requires IsWellFormatted(p) && Assemble(p, output, f, link, maximumLength).Assembled?
    ensures var copy, body := Assemble(p, output, f, link, maximumLength).copy, p.clean(output.body);
            Extract(copy) == if IsReadable(output.headline, body, link) then Some(Output(output.headline, Trim(body)))
                             else None
  {
    PartsReadBack(p, output.headline, p.clean(output.body), f, link);
  }

  /** The round trip: a trimmed, non-empty body without control characters that the
      cleaner leaves alone, under a non-empty headline without any, is composed into a
      copy that is safe and reads back as it was. */
  lemma RoundTrip(p: Platform, output: Output, f: Facts, link: string, maximumLength: nat)
    requires IsWellFormatted(p) && Assemble(p, output, f, link, maximumLength).Assembled?
    requires output.body != "" && Trim(output.body) == output.body && !HasUnsafeControl(output.body)
    requires p.clean(output.body) == output.body
    requires output.headline != "" && !HasControl(output.headline) && IsHttpLink(link)
    ensures var copy := Assemble(p, output, f, link, maximumLength).copy;
            IsSafe(p, copy, link, f, maximumLength) && Extract(copy) == Some(output)
  {
    ComposedIsSafe(p, output, f, link, maximumLength);
    ComposedReadsBack(p, output, f, link, maximumLength);
  }
}
