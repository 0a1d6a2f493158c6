/**
  The validation rules of the request gate, stated declaratively: when a
  request is a size query, when its pointers are present and its key bound to
  its mechanism, when its GCM parameters are well formed, and so when a
  request is fit to cross the boundary. The gate in `Provider` checks these
  rules one after another; the contracts there tie the two together.
 */
module Validation {
  import opened Wrappers
  import opened EnclaveHsm

  /** The largest data key GenerateDataKey produces. */
  const DataKeyMaxLen: ULong := 1024

  /**
    The size-query convention: the request's anchor (the mechanism, or for
    data keys the master key blob) is present, the output buffer is absent and
    the length receiver is present.
   */
  predicate QueryMode<T>(anchor: Option<T>, output: Option<Bytes>, lenReceiver: Option<ULong>) {
    anchor.Some? && output.None? && lenReceiver.Some?
  }

  /** AAD is present exactly when its length is nonzero. */
  predicate AadConsistent(p: GcmParams) {
    p.aadLen == 0 <==> p.aad.None?
  }

  /** The mechanism carries a GCM parameter record of the right size whose AAD is consistent. */
  predicate GcmParamsValid(m: Mechanism, paramsSize: ULong) {
    m.parameterLen == paramsSize && m.parameter.Some? && AadConsistent(m.parameter.value)
  }

  /**
    The caller's obligation behind every GCM parameter read: an AES-GCM
    mechanism whose parameter length matches the record size points at a record.
   */
  predicate ParamsReadable(mech: Option<Mechanism>, paramsSize: ULong) {
    mech.Some? && mech.value.mechanism == AesGcm128 && mech.value.parameterLen == paramsSize
    ==> mech.value.parameter.Some?
  }

  /**
    Encrypt reads the GCM parameter record only on a real request whose
    pointers are present, whose key is bound and whose data is within the limit.
   */
  predicate EncryptParamsReadable(paramsSize: ULong, mech: Option<Mechanism>, blob: Option<KeyBlob>,
                                  data: Option<Bytes>, dataLen: ULong,
                                  output: Option<Bytes>, lenReceiver: Option<ULong>) {
    !QueryMode(mech, output, lenReceiver) && CipherArgumentsPresent(mech, blob, data, output, lenReceiver)
    && dataLen <= EncryptMaxSize
    ==> ParamsReadable(mech, paramsSize)
  }

  /** Decrypt reads the GCM parameter record only on a real request whose pointers are present and key bound. */
  predicate DecryptParamsReadable(paramsSize: ULong, mech: Option<Mechanism>, blob: Option<KeyBlob>,
                                  input: Option<Bytes>, output: Option<Bytes>, lenReceiver: Option<ULong>) {
    CipherArgumentsPresent(mech, blob, input, output, lenReceiver) ==> ParamsReadable(mech, paramsSize)
  }

  /**
    GenerateDataKey reads the GCM parameter record only outside a size query,
    for a valid data-key length, with its pointers present and key bound.
   */
  predicate DataKeyParamsReadable(paramsSize: ULong, mech: Option<Mechanism>, masterKey: Option<KeyBlob>,
                                  plainKeyLen: ULong, output: Option<Bytes>, lenReceiver: Option<ULong>) {
    !QueryMode(masterKey, output, lenReceiver) && DataKeyLenValid(plainKeyLen)
    && DataKeyArgumentsPresent(mech, masterKey, output, lenReceiver)
    ==> ParamsReadable(mech, paramsSize)
  }

  /** Mechanism and key blob are both present and the key's type is the mechanism. */
  predicate KeyBound(mech: Option<Mechanism>, blob: Option<KeyBlob>) {
    mech.Some? && blob.Some? && mech.value.mechanism == blob.value.keyType
  }

  /** A real Encrypt or Decrypt: every pointer present and the key bound to the mechanism. */
  predicate CipherArgumentsPresent(mech: Option<Mechanism>, blob: Option<KeyBlob>, input: Option<Bytes>,
                                   output: Option<Bytes>, lenReceiver: Option<ULong>) {
    KeyBound(mech, blob) && input.Some? && output.Some? && lenReceiver.Some?
  }

  /** An Encrypt request fit for the enclave. */
  predicate EncryptRequestValid(paramsSize: ULong, mech: Option<Mechanism>, blob: Option<KeyBlob>,
                                data: Option<Bytes>, dataLen: ULong,
                                output: Option<Bytes>, lenReceiver: Option<ULong>) {
    && CipherArgumentsPresent(mech, blob, data, output, lenReceiver)
    && mech.value.mechanism == AesGcm128
    && dataLen <= EncryptMaxSize
    && GcmParamsValid(mech.value, paramsSize)
  }

  /** A Decrypt request fit for the enclave; there is no bound on the ciphertext length. */
  predicate DecryptRequestValid(paramsSize: ULong, mech: Option<Mechanism>, blob: Option<KeyBlob>,
                                input: Option<Bytes>, output: Option<Bytes>, lenReceiver: Option<ULong>) {
    && CipherArgumentsPresent(mech, blob, input, output, lenReceiver)
    && mech.value.mechanism == AesGcm128
    && GcmParamsValid(mech.value, paramsSize)
  }

  /** Decrypt's size query that is answered locally: AES-GCM and a ciphertext longer than its overhead. */
  predicate DecryptQueryAnswerable(mech: Option<Mechanism>, output: Option<Bytes>,
                                   lenReceiver: Option<ULong>, inputLen: ULong) {
    QueryMode(mech, output, lenReceiver) && mech.value.mechanism == AesGcm128 && inputLen > AesGcmOverhead
  }

  /** A data-key length GenerateDataKey accepts. */
  predicate DataKeyLenValid(n: ULong) {
    0 < n <= DataKeyMaxLen
  }

  /** A real GenerateDataKey: the pointers it needs present and the master key bound to the mechanism. */
  predicate DataKeyArgumentsPresent(mech: Option<Mechanism>, blob: Option<KeyBlob>,
                                    output: Option<Bytes>, lenReceiver: Option<ULong>) {
    KeyBound(mech, blob) && output.Some? && lenReceiver.Some?
  }

  /** A GenerateDataKey request fit for the enclave; the plaintext-key buffer plays no part. */
  predicate DataKeyRequestValid(paramsSize: ULong, mech: Option<Mechanism>, blob: Option<KeyBlob>,
                                plainKeyLen: ULong, output: Option<Bytes>, lenReceiver: Option<ULong>) {
    && DataKeyLenValid(plainKeyLen)
    && DataKeyArgumentsPresent(mech, blob, output, lenReceiver)
    && mech.value.mechanism == AesGcm128
    && GcmParamsValid(mech.value, paramsSize)
  }
}
