/** Identifier syntax shared by the host updater: operation ids and installed host ids. */
module Identifiers {

  predicate IsAlphanumeric(c: char) {
    'A' <= c <= 'Z' || 'a' <= c <= 'z' || '0' <= c <= '9'
  }

  /** An operation id: one alphanumeric, then at most 63 alphanumerics, underscores or hyphens. */
  predicate IsOperationId(s: string) {
    && 1 <= |s| <= 64
    && IsAlphanumeric(s[0])
    && forall i | 1 <= i < |s| :: IsAlphanumeric(s[i]) || s[i] == '_' || s[i] == '-'
  }

  /** The identity a machine receives at installation: eight lower-case hexadecimal digits. */
  predicate IsHostId(s: string) {
    && |s| == 8
    && forall i | 0 <= i < |s| :: '0' <= s[i] <= '9' || 'a' <= s[i] <= 'f'
  }
}
