/** The collaborators the header builder calls but does not implement: the
    clock, SecureRandom.uuid, Kernel#rand, Time#xmlschema, SHA-1 and
    Base64.encode64. Each is a parameter of the model. The clock, uuid and
    rand give the value of their n-th call, and Draws counts how many calls
    of each kind have been made, so every call site reads a fresh value. */
module Runtime {
  import opened HexEncoding

  /** Digest::SHA1.digest yields 20 bytes. */
  type Sha1Digest = s: seq<Byte> | |s| == 20 witness seq(20, _ => 0)

  /** What Base64.encode64 makes of a 20-byte digest: 28 characters of Base64
      text on one line, ended by a single newline ('\r' is not a Base64
      character, so none precedes it). */
  type Base64Line = s: string | |s| >= 1 && s[|s| - 1] == '\n' && (|s| == 1 || s[|s| - 2] != '\r') witness "\n"

  /** What rand(26) returns. */
  type Letter = n: int | 0 <= n < 26

  datatype Oracles = Oracles(
    clock: nat -> int,                  // the n-th reading of Time.now, in whole seconds
    uuid: nat -> string,                // the n-th SecureRandom.uuid
    rand26: nat -> Letter,              // the n-th rand(26)
    xmlschema: int -> string,           // Time#utc.xmlschema of an instant
    sha1: string -> Sha1Digest,         // Digest::SHA1.digest
    encode64: Sha1Digest -> Base64Line  // Base64.encode64 of a SHA-1 digest
  )

  /** How many clock readings, uuids and rand(26) draws have been used. */
  datatype Draws = Draws(ticks: nat, uuids: nat, rolls: nat)
}
