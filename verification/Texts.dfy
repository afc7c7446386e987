// C strings: text in a buffer, followed by NULs.
module Texts {
  const NUL: char := '\0'

  // The character at i of a text that NULs follow.
  function At(buf: string, i: nat): char {
    if i < |buf| then buf[i] else NUL
  }

  // The text from i to j.
  function Sub(buf: string, i: nat, j: nat): string {
    if i <= j <= |buf| then buf[i..j] else ""
  }
}
