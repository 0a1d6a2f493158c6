/**
  The enclave boundary as seen from the untrusted layer: the four enclave
  calls, the two statuses each of them yields, and the other collaborators
  whose code is not part of this model. All of them are uninterpreted: a
  `Platform` value is one arbitrary choice of their behaviour, and every
  property of the gate is proved for all of them.
 */
module Boundary {
  import opened Wrappers
  import opened EnclaveHsm

  /** `sgx_status_t`: zero is success, every other value an error. */
  type SgxStatus = int

  const SgxSuccess: SgxStatus := 0

  /**
    What an enclave call reports: the status of the call transport itself
    (the ecall's return value) and the status the enclave function wrote back.
   */
  datatype Statuses = Statuses(transport: SgxStatus, inner: SgxStatus)

  /** The call reached the enclave and the enclave function succeeded. */
  predicate Succeeded(s: Statuses) {
    s.transport == SgxSuccess && s.inner == SgxSuccess
  }

  /** Folds the two statuses of an enclave call into the single public result code. */
  function Collapse(s: Statuses): (rv: Rv)
    ensures rv == Ok <==> Succeeded(s)
    ensures rv != Ok ==> rv == FunctionFailed
  {
    if s.transport != SgxSuccess || s.inner != SgxSuccess then FunctionFailed else Ok
  }

  /** One call across the boundary, with the arguments the gate hands over. */
  datatype Call =
    | SgxCreateAesKey(keyData: Option<Bytes>, keyLen: ULong, reportsKeyLen: bool)
    | SgxAesEncrypt(aad: Option<Bytes>, aadLen: ULong, keyData: Option<Bytes>, keyLen: ULong,
                 input: Bytes, inputLen: ULong, output: Bytes, outputLen: ULong)
    | SgxAesDecrypt(aad: Option<Bytes>, aadLen: ULong, keyData: Option<Bytes>, keyLen: ULong,
                 input: Bytes, inputLen: ULong, output: Bytes, outputLen: ULong)
    | SgxGenerateDataKey(mechanism: MechanismType, keyData: Option<Bytes>, keyLen: ULong,
                      context: Option<Bytes>, contextLen: ULong,
                      plainKey: Option<Bytes>, plainKeyLen: ULong,
                      encryptedKey: Bytes, encryptedKeyLen: ULong)

  /**
    The enclave's answer: its two statuses, and the key length it writes back
    when a create-key call passes a receiver for it (`reportsKeyLen`).
   */
  datatype Reply = Reply(status: Statuses, reportedKeyLen: ULong)

  /** The answer of the encrypted-length helper: a result code and, if it wrote one, a length. */
  datatype LenReply = LenReply(rv: Rv, len: Option<ULong>)

  /**
    Everything outside the gate: the enclave calls, the encrypted-length
    helper, and `sizeof(EH_GCM_PARAMS)`, which depends on the platform ABI.
   */
  datatype Platform = Platform(
    ecall: Call -> Reply,
    encryptLen: (MechanismType, ULong) -> LenReply,
    gcmParamsSize: ULong)
}
