/** The instruction preview shown on a recipe card. */
module RecipeCard {
  import opened Text

  /** The preview keeps at most this many characters of the instructions. */
  const PreviewLength: nat := 50

  /**
   * `truncatedInstructions`: the first fifty characters, followed by `...`
   * only when the instructions are longer than that.
   */
  function TruncatedInstructions(instructions: string): (shown: string)
    ensures |instructions| <= PreviewLength ==> shown == instructions
    ensures |instructions| > PreviewLength ==> shown == instructions[..PreviewLength] + "..."
    ensures |shown| == (if |instructions| > PreviewLength then PreviewLength + 3 else |instructions|)
    ensures |shown| <= PreviewLength + 3
    ensures var kept := if |instructions| <= PreviewLength then |instructions| else PreviewLength;
      shown[..kept] == instructions[..kept]
  {
    Prefix(instructions, PreviewLength) + (if |instructions| > PreviewLength then "..." else "")
  }
}
