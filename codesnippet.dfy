/** One code reference card (frontend/src/components/CodeSnippet.jsx):
    its header (file path, line range badge, copy button, link to the full
    file), the highlighted code with its gutter, and the copy button's
    "copied" state. */
module CodeSnippet {
  import opened Js
  import opened Domain
  import Helpers

  // ---------------------------------------------------------------------
  // The line range badge

  /** What the header shows after the file path. */
  datatype HeaderChild = Nothing | StrayText(text: string) | Badge(caption: string)

  function RangeText(lineStart: int, lineEnd: int): string {
    "L" + IntToString(lineStart) + "\U{2013}L" + IntToString(lineEnd)
  }

  /** The header child as written: `lineStart && lineEnd && badge`
      evaluates to its first falsy operand, and a number 0 is rendered
      as the text "0", while undefined renders nothing. */
  function HeaderChildAsWritten(r: Reference): HeaderChild {
    if !TruthyInt(r.lineStart) then
      (if r.lineStart.Some? then StrayText("0") else Nothing)
    else if !TruthyInt(r.lineEnd) then
      (if r.lineEnd.Some? then StrayText("0") else Nothing)
    else Badge(RangeText(r.lineStart.value, r.lineEnd.value))
  }

  /** A reference whose first line is 0 puts a bare "0" into the header,
      whatever its last line is. */
  lemma ZeroLineStartShowsStrayZero(filePath: string, lineEnd: Option<int>, code: string, url: Option<string>)
    ensures HeaderChildAsWritten(Reference(filePath, Some(0), lineEnd, code, url)) == StrayText("0")
  {
  }

  /** The badge as intended: shown exactly when both line numbers are
      present and non-zero, and then it names both. */
  function LineRangeLabel(r: Reference): (badge: Option<string>)
    ensures badge.Some? <==> TruthyInt(r.lineStart) && TruthyInt(r.lineEnd)
    ensures badge.Some? ==> badge.value == RangeText(r.lineStart.value, r.lineEnd.value)
  {
    if TruthyInt(r.lineStart) && TruthyInt(r.lineEnd) then
      Some(RangeText(r.lineStart.value, r.lineEnd.value))
    else None
  }

  /** The two agree except where the written code leaks a "0": they show
      the same badge whenever there is one, and the written code shows
      stray text exactly when a line number is 0 where `&&` stops. */
  lemma LineRangeLabelAgrees(r: Reference)
    ensures LineRangeLabel(r).Some? <==> HeaderChildAsWritten(r).Badge?
    ensures LineRangeLabel(r).Some? ==> HeaderChildAsWritten(r).caption == LineRangeLabel(r).value
    ensures HeaderChildAsWritten(r).StrayText? <==>
      r.lineStart == Some(0) || (TruthyInt(r.lineStart) && r.lineEnd == Some(0))
  {
  }

  /** For positive line numbers the badge is "L", the first number's
      digits, an en dash, "L" and the second number's digits; reading the
      digits back gives the two numbers. */
  lemma LineRangeLabelDigits(r: Reference) returns (first: string, last: string)
    requires r.lineStart.Some? && r.lineStart.value > 0
    requires r.lineEnd.Some? && r.lineEnd.value > 0
    ensures LineRangeLabel(r) == Some("L" + first + "\U{2013}L" + last)
    ensures forall i :: 0 <= i < |first| ==> IsDigit(first[i])
    ensures forall i :: 0 <= i < |last| ==> IsDigit(last[i])
    ensures DigitsValue(first) == r.lineStart.value && DigitsValue(last) == r.lineEnd.value
  {
    first := NatToString(r.lineStart.value);
    last := NatToString(r.lineEnd.value);
    NatToStringRoundTrip(r.lineStart.value);
    NatToStringRoundTrip(r.lineEnd.value);
  }

  // ---------------------------------------------------------------------
  // The card

  /** The gutter's first line number: `reference.lineStart || 1`. */
  function StartingLineNumber(r: Reference): int {
    if TruthyInt(r.lineStart) then r.lineStart.value else 1
  }

  /** The link to the full file, present when `fullFileUrl` is truthy. */
  function ExternalLink(r: Reference): Option<string> {
    if r.fullFileUrl.Some? && r.fullFileUrl.value != "" then r.fullFileUrl else None
  }

  datatype CopyIcon = CopyGlyph | CheckGlyph

  /** Everything the card shows for one reference. */
  datatype SnippetView = SnippetView(
    filePath: string,
    rangeLabel: Option<string>,
    icon: CopyIcon,
    externalLink: Option<string>,
    language: string,
    startingLine: int,
    code: string)

  function RenderSnippet(r: Reference, copied: bool): SnippetView {
    SnippetView(
      r.filePath,
      LineRangeLabel(r),
      if copied then CheckGlyph else CopyGlyph,
      ExternalLink(r),
      Helpers.LanguageFromFilePath(r.filePath),
      StartingLineNumber(r),
      r.code)
  }

  /** The card shows the code verbatim under its file path; the gutter
      starts at the first line whenever that is a non-zero number, with or
      without a last line, and at 1 when the first line is missing or 0;
      when there is a badge the gutter starts at the badge's first line;
      the link appears exactly when there is a non-empty URL; the
      highlighter's language is looked up from the file's extension. */
  lemma RenderSnippetSpec(r: Reference, copied: bool)
    ensures RenderSnippet(r, copied).code == r.code && RenderSnippet(r, copied).filePath == r.filePath
    ensures RenderSnippet(r, copied).icon.CheckGlyph? <==> copied
    ensures RenderSnippet(r, copied).startingLine ==
      (if r.lineStart.Some? && r.lineStart.value != 0 then r.lineStart.value else 1)
    ensures r.lineStart == Some(0) || r.lineStart.None? ==> RenderSnippet(r, copied).startingLine == 1
    ensures RenderSnippet(r, copied).rangeLabel.Some? ==>
      RenderSnippet(r, copied).startingLine == r.lineStart.value
      && RenderSnippet(r, copied).rangeLabel.value == RangeText(r.lineStart.value, r.lineEnd.value)
    ensures RenderSnippet(r, copied).externalLink.Some? <==> r.fullFileUrl.Some? && r.fullFileUrl.value != ""
    ensures RenderSnippet(r, copied).externalLink.Some? ==> RenderSnippet(r, copied).externalLink == r.fullFileUrl
    ensures var ext := Helpers.Extension(r.filePath);
      RenderSnippet(r, copied).language ==
        (if ext in Helpers.LanguageTable then Helpers.LanguageTable[ext] else "text")
  {
    Helpers.LanguageFromFilePathIff(r.filePath);
  }

  // ---------------------------------------------------------------------
  // The copy button

  /** The card's `copied` state and the two-second reset timers that
      successful copies have armed and that have not fired yet. */
  class CopyButton {
    var copied: bool
    var pendingResets: nat

    /** The check mark is only ever shown while a reset is on its way. */
    ghost predicate Valid()
      reads this
    {
      copied ==> pendingResets > 0
    }

    constructor()
      ensures Valid()
      ensures !copied && pendingResets == 0
    {
      copied := false;
      pendingResets := 0;
    }

    /** `handleCopy` once the clipboard write of the card's code has
        settled with `success`: on success the check mark appears and a
        reset is armed; on failure nothing changes. */
    method HandleCopy(success: bool)
      requires Valid()
      modifies this
      ensures Valid()
      ensures copied == (success || old(copied))
      ensures pendingResets == old(pendingResets) + (if success then 1 else 0)
    {
      if success {
        copied := true;
        pendingResets := pendingResets + 1;
      }
    }

    /** One armed timer fires: the copy glyph comes back, even if a later
        copy armed another timer that is still pending. */
    method ResetFires()
      requires Valid() && pendingResets > 0
      modifies this
      ensures Valid()
      ensures !copied && pendingResets == old(pendingResets) - 1
    {
      copied := false;
      pendingResets := pendingResets - 1;
    }
  }
}
