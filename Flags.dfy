/** The bitmask that switches kinds off. A kind's vertices and relations are processed
    exactly when its bit is clear in the (64-bit) flags. */
module Flags {
  const WithoutVolumes: bv64 := 1
  const WithoutNetworks: bv64 := 2
  const WithoutPorts: bv64 := 4
  const WithoutConfigs: bv64 := 8
  const WithoutSecrets: bv64 := 16

  /** The kind whose bit is `bit` is processed under `flags`. */
  predicate Processes(flags: bv64, bit: bv64) {
    flags & bit == 0
  }

  predicate IsFlag(bit: bv64) {
    bit == WithoutVolumes || bit == WithoutNetworks || bit == WithoutPorts
    || bit == WithoutConfigs || bit == WithoutSecrets
  }

  /** Each flag is a single bit, and no two flags share it. */
  lemma FlagsAreDistinctBits(a: bv64, b: bv64)
    requires IsFlag(a) && IsFlag(b)
    ensures a != 0 && a & (a - 1) == 0
    ensures a != b ==> a & b == 0
  {
  }

  /** Setting one flag switches off its own kind and no other. */
  lemma FlagsIndependent(flags: bv64, a: bv64, b: bv64)
    requires IsFlag(a) && IsFlag(b)
    ensures !Processes(flags | a, a)
    ensures a != b ==> (Processes(flags | a, b) <==> Processes(flags, b))
  {
  }

  /** With no flags every kind is processed. */
  lemma NoFlagsProcessesAll(bit: bv64)
    requires IsFlag(bit)
    ensures Processes(0, bit)
  {
  }
}
