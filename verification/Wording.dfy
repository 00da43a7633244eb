/** The fixed wording of the archive reference and of the brief form (compact/selection.go). */
module Wording {
  import opened Text

  const ARCHIVED := "[archived original: snapshot="
  const OF_MESSAGE := " message="
  const OUTPUT := "[output: "
  const BYTES := " bytes, "
  const LINES := " lines; selected literal evidence]\n"

  function Reference(snapshot: string, id: string): string {
    ARCHIVED + (snapshot + (OF_MESSAGE + (id + "]")))
  }

  function Breaks(text: string): nat {
    if text == "" then 0 else (if text[0] == '\n' then 1 else 0) + Breaks(text[1..])
  }

  function BriefHead(text: string): string {
    OUTPUT + (Decimal(|text|) + (BYTES + (Decimal(Breaks(text) + 1) + LINES)))
  }

  lemma ReferenceValid(snapshot: string, id: string)
    requires ValidUtf8(snapshot) && ValidUtf8(id)
    ensures ValidUtf8(Reference(snapshot, id))
  {
    AsciiAppend(id, "]");
    AsciiPrepend(OF_MESSAGE, id + "]");
    ValidConcat(snapshot, OF_MESSAGE + (id + "]"));
    AsciiPrepend(ARCHIVED, snapshot + (OF_MESSAGE + (id + "]")));
  }

  lemma BriefHeadAscii(text: string)
    ensures Ascii(BriefHead(text))
  {
  }
}
