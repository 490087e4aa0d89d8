/** Strings as the domain checks them. */
module Text {

  /** `s == null || s.trim().isEmpty()`: `trim` strips every character up to U+0020,
      so a string is blank when it holds nothing else. A Java `null` string is
      modelled as the empty string. */
  predicate IsBlank(s: string) {
    forall i :: 0 <= i < |s| ==> s[i] <= ' '
  }
}
