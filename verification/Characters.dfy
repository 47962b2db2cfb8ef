/** Character classes of the C library. */
module Characters {

  /** isspace in the default locale. */
  predicate IsSpace(c: char) {
    c as int == 32 || 9 <= c as int <= 13
  }
}
