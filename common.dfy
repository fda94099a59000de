/** Values shared by every part of the model: byte strings, optional values,
    and the failures the Java program reports by throwing. */
module Common {

  /** The contents of a file, or an encoded key. */
  type Bytes = seq<bv8>

  /** A value that may be absent: `Properties.getProperty` answers null for a missing entry. */
  datatype Option<T> = None | Some(value: T)

  /** The exceptions the core throws or catches, one constructor per distinct cause. */
  datatype Failure =
    | NoSuchFile(path: string)          // Files.readAllBytes on a path that is not there
    | IsDirectory(path: string)         // Files.write onto `path` itself or its parent
    | CipherFailure                     // the AES Cipher.doFinal rejected its input
    | WrapFailure                       // RSA encryption or decryption of a wrapped key failed
    | EmptyKey                          // SecretKeySpec refused an unwrapped key of no bytes
    | MalformedKey                      // Base64 or key-spec decoding of a stored key failed
    | MissingValue                      // a null read from the store was dereferenced
    | KeyNotFound(filename: string)     // getKey / getPrivateKey found no entry
    | NoSystemKeyPair                   // the application's rsaKeyPair was never set
    | KeyGenerationFailed               // KeyPairGenerator had no RSA provider
    | BlankInput                        // a username or password field was empty
    | UnknownUser(username: string)     // the registered-user gate refused the name
    | UserAlreadyExists(username: string)
    | NoPrivateFiles(username: string)  // the user's private directory holds no file

  /** The result of an operation that computes a value or throws. */
  datatype Result<T> = Ok(value: T) | Err(error: Failure)

  /** The result of an operation that returns nothing or throws. */
  datatype Outcome = Pass | Fail(error: Failure)
}
