/** The characters that trimming takes off a text. */
module Blanks {
  import opened RuleText

  /** The characters that count as white space. */
  const BLANKS: string := "\t\n\U{b}\U{c}\r\U{1c}\U{1d}\U{1e}\U{1f} \U{85}\U{a0}\U{1680}" +
    "\U{2000}\U{2001}\U{2002}\U{2003}\U{2004}\U{2005}\U{2006}\U{2007}\U{2008}\U{2009}\U{200a}" +
    "\U{2028}\U{2029}\U{202f}\U{205f}\U{3000}"

  /** These are all of them, the tabs, line ends and other white space of Unicode as well as the separators of ASCII. */
  lemma SpaceIff(c: char)
    ensures IsSpace(c) <==> c in BLANKS
  {
  }
}
