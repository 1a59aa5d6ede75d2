/** The slug check every alias and room id passes (src/protocol/validation.ts). */
module Slugs {

  const MAX_SLUG_LENGTH := 64

  predicate SlugChar(c: char) {
    'a' <= c <= 'z' || '0' <= c <= '9' || c == '-'
  }

  /** `isSafeSlug`: its further checks for dots and slashes are implied by the character class. */
  predicate IsSafeSlug(text: string) {
    0 < |text| <= MAX_SLUG_LENGTH && forall i :: 0 <= i < |text| ==> SlugChar(text[i])
  }
}
