// The texts the pilot may send in a room, and the check every one of them passes before it is
// sent (src/rosetta/engagement.py:16-30, 133-179).
module Outbound {
  import opened Radix
  import Canonical

  // ---- what is produced ----

  datatype Kind = MailboxInterop | UpgradeCompat

  // A text with one gap for the service card's address.
  datatype Template = Template(before: string, after: string)

  const MAILBOX_LEAD: string := "For the signed mailbox interoperability question"
  const UPGRADE_LEAD: string := "For the Technocore adapter upgrade question"

  const REPLY_BODY: string :=
    ", Rosetta can run a bounded signed-mailbox "
    + "roundtrip across reviewed runtime paths and return a verifiable report. "
    + "It does not diagnose arbitrary code or certify safety. The signed request schema, "
    + "supported paths and public mailbox are in "

  function Lead(kind: Kind): string {
    match kind
    case MailboxInterop => MAILBOX_LEAD
    case UpgradeCompat => UPGRADE_LEAD
  }

  // A reply after its sequence number.
  function ReplyTemplate(kind: Kind): Template {
    Template(": " + Lead(kind) + REPLY_BODY, ".")
  }

  const OFFER: Template := Template(
    "Rosetta offers a free bounded signed-mailbox compatibility check across reviewed "
    + "Technocore adapter paths. Agents can discover the closed request schema and public mailbox at ",
    ". Reports are verifiable; this is not a security certification.")

  const UPGRADING: Template := Template(
    "Upgrading a Technocore MCP, Python, TypeScript, or raw HTTP adapter? Rosetta can run the "
    + "reviewed signed-mailbox roundtrip and return reproducible evidence. Request details: ",
    ". No code or secrets are accepted.")

  const EVIDENCE: Template := Template(
    "Need evidence that a signed Technocore mailbox flow still works after restart, 429, cursor "
    + "or retry behavior? Rosetta's free bounded test and public request mailbox are described at ",
    ". Results observe compatibility, not safety.")

  const PRIVATE: Template := Template(
    "Agents can request Rosetta's closed-schema Technocore interoperability check without "
    + "sharing code, prompts, credentials, or private mailboxes. Supported paths and signed results: ",
    ".")

  const PROACTIVE_TEMPLATES: seq<Template> := [OFFER, UPGRADING, EVIDENCE, PRIVATE]

  function Filled(t: Template, baseUrl: string): string {
    t.before + baseUrl + "/service-card.json" + t.after
  }

  function Numbered(t: Template, sequence: nat, baseUrl: string): string
    requires sequence > 0
  {
    "Re #" + Canonical.Decimal(sequence) + Filled(t, baseUrl)
  }

  function ReplyText(kind: Kind, sequence: nat, baseUrl: string): string
    requires sequence > 0
  {
    Numbered(ReplyTemplate(kind), sequence, baseUrl)
  }

  // The template of a slot.
  function SlotTemplate(templates: seq<Template>, slot: nat): Template
    requires templates != []
  {
    templates[slot % |templates|]
  }

  function ProactiveText(slot: nat, baseUrl: string): string {
    Filled(SlotTemplate(PROACTIVE_TEMPLATES, slot), baseUrl)
  }

  predicate HostChar(c: char) {
    'A' <= c <= 'Z' || 'a' <= c <= 'z' || '0' <= c <= '9' || c == '.' || c == ':' || c == '-'
  }

  predicate Host(s: string) {
    s != "" && forall i :: 0 <= i < |s| ==> HostChar(s[i])
  }

  // The template filled with some service address, alone or after some sequence number.
  ghost predicate IsFilled(text: string, t: Template) {
    exists host: string :: Host(host) && text == Filled(t, "https://" + host)
  }

  ghost predicate IsNumbered(text: string, t: Template) {
    exists sequence: nat, host: string ::
      0 < sequence <= Canonical.MAX_NONCE && Host(host) && text == Numbered(t, sequence, "https://" + host)
  }

  ghost predicate IsReply(text: string) {
    exists kind: Kind :: IsNumbered(text, ReplyTemplate(kind))
  }

  ghost predicate IsProactive(text: string, templates: seq<Template>)
    requires templates != []
  {
    exists slot: nat :: IsFilled(text, SlotTemplate(templates, slot))
  }

  // ---- what is accepted ----

  predicate Suffix(s: string, end: string) {
    |end| <= |s| && s[|s| - |end|..] == end
  }

  // A full match of the template with a host in its gap: the literal text before, the longest
  // stretch that the literal text after leaves, and that text.
  predicate MatchesTemplate(text: string, t: Template) {
    var before, after := t.before + "https://", "/service-card.json" + t.after;
    && before <= text && Suffix(text, after) && |before| + |after| <= |text|
    && Host(text[|before|..|text| - |after|])
  }

  predicate IsDigit(c: char) {
    '0' <= c <= '9'
  }

  function DigitRun(s: string): (n: nat)
    ensures n <= |s|
    ensures forall i :: 0 <= i < n ==> IsDigit(s[i])
    ensures n < |s| ==> !IsDigit(s[n])
  {
    if s == "" || !IsDigit(s[0]) then 0 else 1 + DigitRun(s[1..])
  }

  // "Re #", one to nineteen digits without a leading zero, and the template.
  predicate MatchesNumbered(text: string, t: Template) {
    && "Re #" <= text
    && var rest := text[4..];
       var n := DigitRun(rest);
       1 <= n <= 19 && rest[0] != '0' && MatchesTemplate(rest[n..], t)
  }

  predicate MatchesContextual(text: string) {
    MatchesNumbered(text, ReplyTemplate(MailboxInterop)) || MatchesNumbered(text, ReplyTemplate(UpgradeCompat))
  }

  predicate MatchesAny(text: string, templates: seq<Template>) {
    exists i | 0 <= i < |templates| :: MatchesTemplate(text, templates[i])
  }

  predicate ValidOutboundText(text: string) {
    MatchesContextual(text) || MatchesAny(text, PROACTIVE_TEMPLATES)
  }

  // ---- the two agree ----

  lemma {:induction false} Parts(before: string, host: string, after: string)
    ensures var text := before + host + after;
            before <= text && Suffix(text, after) && text[|before|..|text| - |after|] == host
  {
    var text := before + host + after;
    assert text[..|before|] == before;
    assert text[|text| - |after|..] == after;
  }

  lemma {:induction false} FilledInParts(t: Template, host: string)
    ensures Filled(t, "https://" + host) == (t.before + "https://") + host + ("/service-card.json" + t.after)
  {
  }

  lemma {:induction false} MatchesWhenFilled(t: Template, host: string)
    requires Host(host)
    ensures MatchesTemplate(Filled(t, "https://" + host), t)
  {
    Parts(t.before + "https://", host, "/service-card.json" + t.after);
    FilledInParts(t, host);
  }

  lemma {:induction false} FilledWhenMatches(text: string, t: Template) returns (host: string)
    requires MatchesTemplate(text, t)
    ensures Host(host) && text == Filled(t, "https://" + host)
  {
    var before, after := t.before + "https://", "/service-card.json" + t.after;
    host := text[|before|..|text| - |after|];
    assert text == text[..|before|] + host + text[|text| - |after|..];
    assert before + host + after == Filled(t, "https://" + host);
  }

  lemma {:induction false} DigitRunAt(digits: string, rest: string)
    requires forall i :: 0 <= i < |digits| ==> IsDigit(digits[i])
    requires rest == "" || !IsDigit(rest[0])
    ensures DigitRun(digits + rest) == |digits|
  {
    if digits == "" {
      assert digits + rest == rest;
    } else {
      assert (digits + rest)[1..] == digits[1..] + rest;
      DigitRunAt(digits[1..], rest);
    }
  }

  lemma {:induction false} DigitsShort(n: nat, k: nat)
    ensures |Digits(n, 10)| <= k <==> n < Pow(10, k)
    decreases k
  {
    PowPositive(10, k);
    if n == 0 || k == 0 {
    } else {
      DigitsShort(n / 10, k - 1);
      assert n < Pow(10, k - 1) * 10 <==> n / 10 < Pow(10, k - 1);
    }
  }

  lemma {:induction false} NineteenDigits()
    ensures Canonical.MAX_NONCE + 1 == Pow(10, 19)
  {
    assert Pow(10, 5) == 100_000;
    PowSum(10, 5, 5);
    PowSum(10, 10, 5);
    assert Pow(10, 4) == 10_000;
    PowSum(10, 15, 4);
  }

  // A run of digits without a leading zero is some number in decimal.
  lemma {:induction false} NumberOf(digits: string) returns (n: nat)
    requires 1 <= |digits| <= 19 && digits[0] != '0' && forall i :: 0 <= i < |digits| ==> IsDigit(digits[i])
    ensures 0 < n <= Canonical.MAX_NONCE && Canonical.Decimal(n) == digits
  {
    var ds := seq(|digits|, i requires 0 <= i < |digits| => digits[i] as int - 48);
    assert forall i :: 0 <= i < |ds| ==> IsDigit(digits[i]) && 0 <= ds[i] < 10;
    var ns: seq<nat> := ds;
    n := Value(ns, 10);
    DigitsOfValue(ns, 10);
    DigitsShort(n, 19);
    NineteenDigits();
    assert n > 0;
    assert Canonical.Decimal(n) == digits;
  }

  lemma {:induction false} NumberedMatches(t: Template, sequence: nat, host: string)
    requires t.before != "" && t.before[0] == ':' && 0 < sequence <= Canonical.MAX_NONCE && Host(host)
    ensures MatchesNumbered(Numbered(t, sequence, "https://" + host), t)
  {
    var digits, tail := Canonical.Decimal(sequence), Filled(t, "https://" + host);
    var text := Numbered(t, sequence, "https://" + host);
    assert text == "Re #" + (digits + tail);
    assert text[4..] == digits + tail && (digits + tail)[|digits|..] == tail;
    forall i | 0 <= i < |digits| ensures IsDigit(digits[i]) { assert digits[i] in digits; }
    assert tail[0] == ':';
    DigitRunAt(digits, tail);
    DigitsShort(sequence, 19);
    NineteenDigits();
    MatchesWhenFilled(t, host);
  }

  lemma {:induction false} AfterRe(text: string, n: nat)
    requires "Re #" <= text && n <= |text[4..]|
    ensures text == "Re #" + text[4..][..n] + text[4..][n..]
  {
    assert text == text[..4] + text[4..] && text[..4] == "Re #";
  }

  lemma {:induction false} MatchIsNumbered(text: string, t: Template)
    requires MatchesNumbered(text, t)
    ensures IsNumbered(text, t)
  {
    var rest := text[4..];
    var n := DigitRun(rest);
    var sequence := NumberOf(rest[..n]);
    var host := FilledWhenMatches(rest[n..], t);
    AfterRe(text, n);
    assert text == Numbered(t, sequence, "https://" + host);
  }

  lemma {:induction false} NumberedIffMatches(text: string, t: Template)
    requires t.before != "" && t.before[0] == ':'
    ensures MatchesNumbered(text, t) <==> IsNumbered(text, t)
  {
    if MatchesNumbered(text, t) { MatchIsNumbered(text, t); }
    if sequence: nat, host: string :|
        0 < sequence <= Canonical.MAX_NONCE && Host(host) && text == Numbered(t, sequence, "https://" + host) {
      NumberedMatches(t, sequence, host);
    }
  }

  lemma {:induction false} FilledIffMatches(text: string, t: Template)
    ensures MatchesTemplate(text, t) <==> IsFilled(text, t)
  {
    if MatchesTemplate(text, t) { var host := FilledWhenMatches(text, t); }
    if host: string :| Host(host) && text == Filled(t, "https://" + host) { MatchesWhenFilled(t, host); }
  }

  lemma {:induction false} ColonFirst(kind: Kind)
    ensures ReplyTemplate(kind).before != "" && ReplyTemplate(kind).before[0] == ':'
  {
  }

  lemma {:induction false} ExactlyReplies(text: string)
    ensures MatchesContextual(text) <==> IsReply(text)
  {
    forall kind: Kind ensures MatchesNumbered(text, ReplyTemplate(kind)) <==> IsNumbered(text, ReplyTemplate(kind)) {
      ColonFirst(kind);
      NumberedIffMatches(text, ReplyTemplate(kind));
    }
  }

  lemma {:induction false} SlotOfIndex(templates: seq<Template>, i: nat)
    requires i < |templates|
    ensures SlotTemplate(templates, i) == templates[i]
  {
  }

  lemma {:induction false} IndexOfSlot(templates: seq<Template>, slot: nat) returns (i: nat)
    requires templates != []
    ensures i < |templates| && SlotTemplate(templates, slot) == templates[i]
  {
    i := slot % |templates|;
  }

  lemma {:induction false} MatchHasSlot(text: string, templates: seq<Template>, i: nat)
    requires i < |templates| && MatchesTemplate(text, templates[i])
    ensures IsProactive(text, templates)
  {
    SlotOfIndex(templates, i);
    FilledIffMatches(text, templates[i]);
    assert IsFilled(text, SlotTemplate(templates, i));
  }

  lemma {:induction false} SlotHasMatch(text: string, templates: seq<Template>, slot: nat)
    requires templates != [] && IsFilled(text, SlotTemplate(templates, slot))
    ensures MatchesAny(text, templates)
  {
    var i := IndexOfSlot(templates, slot);
    FilledIffMatches(text, templates[i]);
  }

  lemma {:induction false} ExactlySlots(text: string, templates: seq<Template>)
    requires templates != []
    ensures MatchesAny(text, templates) <==> IsProactive(text, templates)
  {
    if i :| 0 <= i < |templates| && MatchesTemplate(text, templates[i]) { MatchHasSlot(text, templates, i); }
    if slot: nat :| IsFilled(text, SlotTemplate(templates, slot)) { SlotHasMatch(text, templates, slot); }
  }

  // Exactly the producible texts pass, whatever the host, the sequence and the slot.
  lemma {:induction false} ExactlyTheProducible(text: string)
    ensures ValidOutboundText(text) <==> IsReply(text) || IsProactive(text, PROACTIVE_TEMPLATES)
  {
    ExactlyReplies(text);
    ExactlySlots(text, PROACTIVE_TEMPLATES);
  }

  // Every text the pilot writes is accepted.
  lemma {:induction false} OwnTextsPass(kind: Kind, sequence: nat, slot: nat, host: string)
    requires 0 < sequence <= Canonical.MAX_NONCE && Host(host)
    ensures ValidOutboundText(ReplyText(kind, sequence, "https://" + host))
    ensures ValidOutboundText(ProactiveText(slot, "https://" + host))
  {
    var reply, post := ReplyText(kind, sequence, "https://" + host), ProactiveText(slot, "https://" + host);
    assert IsNumbered(reply, ReplyTemplate(kind));
    ExactlyTheProducible(reply);
    assert IsFilled(post, SlotTemplate(PROACTIVE_TEMPLATES, slot));
    ExactlyTheProducible(post);
  }
}
