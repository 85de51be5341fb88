/**
 * The few JavaScript string facilities the prompts and the run engine rely on: the white-space class
 * of `\s` and `trim`, and substring search.
 */
module Text {

  /** The characters of JavaScript's `\s`, which are also the ones `trim` removes. */
  predicate IsSpace(c: char) {
    || c in {'\t', '\n', '\U{B}', '\U{C}', '\r', ' ', '\U{A0}', '\U{1680}'}
    || '\U{2000}' <= c <= '\U{200A}'
    || c in {'\U{2028}', '\U{2029}', '\U{202F}', '\U{205F}', '\U{3000}', '\U{FEFF}'}
  }

  predicate At(text: string, i: int, word: string) {
    0 <= i && i + |word| <= |text| && text[i..i + |word|] == word
  }

  predicate Contains(text: string, word: string) {
    exists i :: 0 <= i <= |text| && At(text, i, word)
  }

  /** `text.trim() === ''` */
  predicate IsBlank(text: string) {
    forall i :: 0 <= i < |text| ==> IsSpace(text[i])
  }

  function TrimStart(text: string): (t: string)
    ensures |t| <= |text|
    ensures t != [] ==> !IsSpace(t[0])
    ensures t == text[|text| - |t|..]
    ensures forall i :: 0 <= i < |text| - |t| ==> IsSpace(text[i])
  {
    if text != [] && IsSpace(text[0]) then TrimStart(text[1..]) else text
  }

  function TrimEnd(text: string): (t: string)
    ensures |t| <= |text|
    ensures t != [] ==> !IsSpace(t[|t| - 1])
    ensures t == text[..|t|]
    ensures forall i :: |t| <= i < |text| ==> IsSpace(text[i])
  {
    if text != [] && IsSpace(text[|text| - 1]) then TrimEnd(text[..|text| - 1]) else text
  }

  function Trim(text: string): string {
    TrimEnd(TrimStart(text))
  }

  function Join(parts: seq<string>, separator: string): string {
    if parts == [] then ""
    else if |parts| == 1 then parts[0]
    else parts[0] + separator + Join(parts[1..], separator)
  }
}
