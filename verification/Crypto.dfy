/** Versioned encryption of stored credentials. A ciphertext is ideal: it opens under its own key and no other. */
module Crypto {
  import opened Common

  type Key = int

  datatype Sealed = Sealed(key: Key, plaintext: string)

  datatype Encrypted = Encrypted(ciphertext: Sealed, keyVersion: nat)

  datatype CipherError = VersionUnavailable | InvalidToken

  datatype CipherData = CipherData(keys: map<nat, Key>, activeVersion: nat)

  /** Only a cipher whose active version is among its keys can be made. */
  type Cipher = c: CipherData | c.activeVersion in c.keys
    witness CipherData(map[1 := 0], 1)

  function ActiveKey(c: Cipher): Key {
    c.keys[c.activeVersion]
  }

  function Encrypt(c: Cipher, plaintext: string): Encrypted {
    Encrypted(Sealed(ActiveKey(c), plaintext), c.activeVersion)
  }

  function Decrypt(c: Cipher, ciphertext: Sealed, keyVersion: nat): Result<string, CipherError> {
    if keyVersion !in c.keys then Err(VersionUnavailable)
    else if c.keys[keyVersion] == ciphertext.key then Ok(ciphertext.plaintext)
    else Err(InvalidToken)
  }

  // ----- Loading the key files -----------------------------------------------------------------------------------

  /** The key files of a secret, by version; the unsuffixed file is version 1. */
  type KeyFiles = map<nat, Key>

  ghost predicate LoadedFrom(files: KeyFiles, keys: map<nat, Key>, last: nat) {
    && last >= 1
    && (forall v: nat :: v in keys <==> 1 <= v <= last)
    && (forall v: nat :: 1 <= v <= last ==> v in files && keys[v] == files[v])
    && last + 1 !in files
  }

  /**
    `_load_versioned_secret`: version 1 is created if it is missing, then 2, 3, ... are read until one is not
    there. The keys are an unbroken row, and the last of them is the active one.
   */
  method LoadVersionedSecret(files: KeyFiles, freshKey: Key) returns (c: Cipher, files': KeyFiles)
    ensures files' == if 1 in files then files else files[1 := freshKey]
    ensures LoadedFrom(files', c.keys, c.activeVersion)
  {
    files' := files;
    if 1 !in files' {
      files' := files'[1 := freshKey];
    }
    var keys: map<nat, Key> := map[1 := files'[1]];
    var version: nat := 2;
    ghost var seen := {1};
    assert seen <= files'.Keys;
    while version in files'
      invariant version >= 2 && forall v: nat :: v in keys <==> 1 <= v < version
      invariant forall v: nat :: 1 <= v < version ==> v in files' && keys[v] == files'[v]
      invariant seen <= files'.Keys && forall v: nat :: v in seen <==> 1 <= v < version
      decreases files'.Keys - seen
    {
      keys := keys[version := files'[version]];
      seen := seen + {version};
      version := version + 1;
    }
    c := CipherData(keys, version - 1);
  }

  /** `later` knows every key `earlier` knew, and encrypts under the same version or a newer one. */
  ghost predicate Extends(later: Cipher, earlier: Cipher) {
    && earlier.keys.Keys <= later.keys.Keys
    && (forall v :: v in earlier.keys ==> later.keys[v] == earlier.keys[v])
    && earlier.activeVersion <= later.activeVersion
  }

  /** Adding key files and restarting never loses a version, and never goes back to an older one. */
  lemma {:induction false} RestartExtends(files: KeyFiles, more: KeyFiles, earlier: Cipher, later: Cipher)
    requires LoadedFrom(files, earlier.keys, earlier.activeVersion)
    requires LoadedFrom(more, later.keys, later.activeVersion)
    requires files.Keys <= more.Keys && forall v :: v in files ==> more[v] == files[v]
    ensures Extends(later, earlier)
  {
    assert later.activeVersion + 1 !in files;
  }

  /** What is encrypted opens to the same text under the newest version, under no other key and no missing version. */
  lemma {:induction false} NewestEncrypts(files: KeyFiles, c: Cipher, plaintext: string)
    requires LoadedFrom(files, c.keys, c.activeVersion)
    ensures var e := Encrypt(c, plaintext);
            && e.keyVersion in files && e.keyVersion + 1 !in files && (forall v :: v in c.keys ==> v <= e.keyVersion)
            && forall v: nat ::
                 Decrypt(c, e.ciphertext, v) == if v !in c.keys then Err(VersionUnavailable)
                                                else if files[v] == files[e.keyVersion] then Ok(plaintext)
                                                else Err(InvalidToken)
  {
  }

  /** A ciphertext stays readable under its version for as long as the keys only grow. */
  lemma {:induction false} StillReadable(earlier: Cipher, later: Cipher, e: Encrypted, plaintext: string)
    requires Extends(later, earlier) && Decrypt(earlier, e.ciphertext, e.keyVersion) == Ok(plaintext)
    ensures Decrypt(later, e.ciphertext, e.keyVersion) == Ok(plaintext)
  {
  }
}
