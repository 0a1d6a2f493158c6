/**
  The caller-facing request gate of the enclave HSM provider. Each public
  call first decides, from its arguments alone, one of four things
  (`Decision`): reject locally with a result code, answer a size query
  locally, hand a size query to the encrypted-length helper, or forward one
  call across the enclave boundary. `Perform` then carries the decision out
  against a `Platform` and collapses the enclave's two statuses into one code.
 */
module Provider {
  import opened Wrappers
  import opened EnclaveHsm
  import opened Boundary
  import opened Validation

  datatype Decision =
    | Reject(rv: Rv)
    | ReportLen(len: ULong)
    | DelegateLen(keySpec: MechanismType, inputLen: ULong)
    | Forward(call: Call)

  /** The result code of a data-producing call and the length receiver's value afterwards (`None` if absent). */
  datatype Outcome = Outcome(rv: Rv, lenOut: Option<ULong>)

  /** The result code of CreateKey and the caller's key blob afterwards (`None` if absent). */
  datatype KeyOutcome = KeyOutcome(rv: Rv, blob: Option<KeyBlob>)

  /**
    The three GCM parameter checks shared by Encrypt, Decrypt and
    GenerateDataKey, in source order: parameter length, then AAD length
    without AAD, then AAD without AAD length.
   */
  function GcmCheck(m: Mechanism, paramsSize: ULong): (r: Option<Rv>)
    requires m.parameterLen == paramsSize ==> m.parameter.Some?
    ensures r.None? <==> GcmParamsValid(m, paramsSize)
    ensures r.Some? ==> r.value == ArgumentsBad
  {
    if m.parameterLen != paramsSize then Some(ArgumentsBad)
    else
      var p := m.parameter.value;
      if p.aadLen != 0 && p.aad.None? then Some(ArgumentsBad)
      else if p.aadLen == 0 && p.aad.Some? then Some(ArgumentsBad)
      else None
  }

  function EncryptGate(paramsSize: ULong, mech: Option<Mechanism>, blob: Option<KeyBlob>,
                       data: Option<Bytes>, dataLen: ULong,
                       output: Option<Bytes>, lenReceiver: Option<ULong>): (d: Decision)
    requires EncryptParamsReadable(paramsSize, mech, blob, data, dataLen, output, lenReceiver)
    ensures QueryMode(mech, output, lenReceiver) ==> d == DelegateLen(mech.value.mechanism, dataLen)
    ensures !QueryMode(mech, output, lenReceiver) ==> d.Reject? || d.Forward?
    ensures d.Forward? <==> !QueryMode(mech, output, lenReceiver)
                            && EncryptRequestValid(paramsSize, mech, blob, data, dataLen, output, lenReceiver)
    ensures d == Reject(MechanismInvalid) <==> !QueryMode(mech, output, lenReceiver)
                                                && CipherArgumentsPresent(mech, blob, data, output, lenReceiver)
                                                && mech.value.mechanism != AesGcm128
    ensures d.Reject? ==> d.rv == ArgumentsBad || d.rv == MechanismInvalid
    ensures d.Forward? ==> d.call == SgxAesEncrypt(mech.value.parameter.value.aad, mech.value.parameter.value.aadLen,
                                                blob.value.keyData, blob.value.keyLen,
                                                data.value, dataLen, output.value, lenReceiver.value)
  {
    if QueryMode(mech, output, lenReceiver) then DelegateLen(mech.value.mechanism, dataLen)
    else if mech.None? || blob.None? || data.None? || output.None? || lenReceiver.None?
            || mech.value.mechanism != blob.value.keyType then Reject(ArgumentsBad)
    else if mech.value.mechanism != AesGcm128 then Reject(MechanismInvalid)
    else if dataLen > EncryptMaxSize then Reject(ArgumentsBad)
    else match GcmCheck(mech.value, paramsSize)
      case Some(rv) => Reject(rv)
      case None =>
        var p := mech.value.parameter.value;
        Forward(SgxAesEncrypt(p.aad, p.aadLen, blob.value.keyData, blob.value.keyLen,
                           data.value, dataLen, output.value, lenReceiver.value))
  }

  function DecryptGate(paramsSize: ULong, mech: Option<Mechanism>, blob: Option<KeyBlob>,
                       input: Option<Bytes>, inputLen: ULong,
                       output: Option<Bytes>, lenReceiver: Option<ULong>): (d: Decision)
    requires DecryptParamsReadable(paramsSize, mech, blob, input, output, lenReceiver)
    ensures DecryptQueryAnswerable(mech, output, lenReceiver, inputLen)
            ==> d.ReportLen? && d.len + AesGcmOverhead == inputLen
    ensures !DecryptQueryAnswerable(mech, output, lenReceiver, inputLen) ==> d.Reject? || d.Forward?
    ensures d.Forward? <==> DecryptRequestValid(paramsSize, mech, blob, input, output, lenReceiver)
    ensures d == Reject(MechanismInvalid) <==> CipherArgumentsPresent(mech, blob, input, output, lenReceiver)
                                                && mech.value.mechanism != AesGcm128
    ensures d.Reject? ==> d.rv == ArgumentsBad || d.rv == MechanismInvalid
    ensures d.Forward? ==> d.call == SgxAesDecrypt(mech.value.parameter.value.aad, mech.value.parameter.value.aadLen,
                                                blob.value.keyData, blob.value.keyLen,
                                                input.value, inputLen, output.value, lenReceiver.value)
  {
    if QueryMode(mech, output, lenReceiver) && mech.value.mechanism == AesGcm128
       && inputLen > AesGcmIvSize + AesGcmMacSize then
      ReportLen(inputLen - AesGcmIvSize - AesGcmMacSize)
    else if mech.None? || blob.None? || output.None? || input.None? || lenReceiver.None?
            || mech.value.mechanism != blob.value.keyType then Reject(ArgumentsBad)
    else if mech.value.mechanism != AesGcm128 then Reject(MechanismInvalid)
    else match GcmCheck(mech.value, paramsSize)
      case Some(rv) => Reject(rv)
      case None =>
        var p := mech.value.parameter.value;
        Forward(SgxAesDecrypt(p.aad, p.aadLen, blob.value.keyData, blob.value.keyLen,
                           input.value, inputLen, output.value, lenReceiver.value))
  }

  function DataKeyGate(paramsSize: ULong, mech: Option<Mechanism>, masterKey: Option<KeyBlob>,
                       plainKey: Option<Bytes>, plainKeyLen: ULong,
                       output: Option<Bytes>, lenReceiver: Option<ULong>): (d: Decision)
    requires DataKeyParamsReadable(paramsSize, mech, masterKey, plainKeyLen, output, lenReceiver)
    ensures QueryMode(masterKey, output, lenReceiver) ==> d == DelegateLen(masterKey.value.keyType, plainKeyLen)
    ensures !QueryMode(masterKey, output, lenReceiver) ==> d.Reject? || d.Forward?
    ensures d.Forward? <==> !QueryMode(masterKey, output, lenReceiver)
                            && DataKeyRequestValid(paramsSize, mech, masterKey, plainKeyLen, output, lenReceiver)
    ensures d == Reject(MechanismInvalid) <==> !QueryMode(masterKey, output, lenReceiver)
                                                && DataKeyLenValid(plainKeyLen)
                                                && DataKeyArgumentsPresent(mech, masterKey, output, lenReceiver)
                                                && mech.value.mechanism != AesGcm128
    ensures d.Reject? ==> d.rv == ArgumentsBad || d.rv == MechanismInvalid
    ensures d.Forward? ==> d.call == SgxGenerateDataKey(AesGcm128, masterKey.value.keyData, masterKey.value.keyLen,
                                                     mech.value.parameter.value.aad, mech.value.parameter.value.aadLen,
                                                     plainKey, plainKeyLen, output.value, lenReceiver.value)
  {
    if QueryMode(masterKey, output, lenReceiver) then DelegateLen(masterKey.value.keyType, plainKeyLen)
    else if plainKeyLen > DataKeyMaxLen || plainKeyLen == 0 then Reject(ArgumentsBad)
    else if mech.None? || masterKey.None? || output.None? || lenReceiver.None?
            || mech.value.mechanism != masterKey.value.keyType then Reject(ArgumentsBad)
    else if mech.value.mechanism != AesGcm128 then Reject(MechanismInvalid)
    else match GcmCheck(mech.value, paramsSize)
      case Some(rv) => Reject(rv)
      case None =>
        var p := mech.value.parameter.value;
        Forward(SgxGenerateDataKey(mech.value.mechanism, masterKey.value.keyData, masterKey.value.keyLen,
                                p.aad, p.aadLen, plainKey, plainKeyLen, output.value, lenReceiver.value))
  }

  /**
    Carries a decision out. A forwarded call receives the length receiver's
    value, not the receiver itself, so only a size query ever changes it.
   */
  function Perform(platform: Platform, d: Decision, lenReceiver: Option<ULong>): (o: Outcome)
    ensures d.Reject? ==> o == Outcome(d.rv, lenReceiver)
    ensures d.ReportLen? ==> o == Outcome(Ok, Some(d.len))
    ensures d.DelegateLen? ==> o.rv == platform.encryptLen(d.keySpec, d.inputLen).rv
    ensures d.Forward? ==> o.lenOut == lenReceiver
    ensures d.Forward? ==> (o.rv == Ok <==> Succeeded(platform.ecall(d.call).status))
    ensures d.Forward? && o.rv != Ok ==> o.rv == FunctionFailed
  {
    match d
    case Reject(rv) => Outcome(rv, lenReceiver)
    case ReportLen(n) => Outcome(Ok, Some(n))
    case DelegateLen(spec, n) =>
      var reply := platform.encryptLen(spec, n);
      Outcome(reply.rv, if reply.len.Some? then reply.len else lenReceiver)
    case Forward(call) => Outcome(Collapse(platform.ecall(call).status), lenReceiver)
  }

  /**
    Creates a key of type `keySpec` into the caller's blob. The key type is
    written before the mechanism is dispatched, so an unsupported `keySpec`
    still leaves it overwritten. Without key material the enclave reports the
    key length through the blob.
   */
  function CreateKey(platform: Platform, keySpec: MechanismType, origin: KeyOrigin, blob: Option<KeyBlob>): (o: KeyOutcome)
    ensures origin != InternalKey || blob.None? ==> o == KeyOutcome(ArgumentsBad, blob)
    ensures origin == InternalKey && blob.Some? ==>
              && o.blob.Some?
              && o.blob.value.keyType == keySpec
              && o.blob.value.keyData == blob.value.keyData
              && (blob.value.keyData.Some? ==> o.blob.value.keyLen == blob.value.keyLen)
    ensures o.rv == MechanismInvalid <==> origin == InternalKey && blob.Some? && keySpec != AesGcm128
    ensures o.rv == MechanismInvalid ==> o.blob == Some(blob.value.(keyType := keySpec))
    ensures o.rv == Ok ==>
              && origin == InternalKey && keySpec == AesGcm128 && blob.Some?
              && Succeeded(platform.ecall(SgxCreateAesKey(blob.value.keyData, blob.value.keyLen,
                                                       blob.value.keyData.None?)).status)
    ensures o.rv in {Ok, MechanismInvalid, FunctionFailed, ArgumentsBad}
  {
    if origin != InternalKey || blob.None? then KeyOutcome(ArgumentsBad, blob)
    else
      var typed := blob.value.(keyType := keySpec);
      if keySpec != AesGcm128 then KeyOutcome(MechanismInvalid, Some(typed))
      else
        var reply := platform.ecall(SgxCreateAesKey(typed.keyData, typed.keyLen, typed.keyData.None?));
        var keyLen := if typed.keyData.None? then reply.reportedKeyLen else typed.keyLen;
        KeyOutcome(Collapse(reply.status), Some(typed.(keyLen := keyLen)))
  }

  function Encrypt(platform: Platform, mech: Option<Mechanism>, blob: Option<KeyBlob>,
                   data: Option<Bytes>, dataLen: ULong,
                   output: Option<Bytes>, lenReceiver: Option<ULong>): (o: Outcome)
    requires EncryptParamsReadable(platform.gcmParamsSize, mech, blob, data, dataLen, output, lenReceiver)
    ensures QueryMode(mech, output, lenReceiver) ==> o.rv == platform.encryptLen(mech.value.mechanism, dataLen).rv
    ensures !QueryMode(mech, output, lenReceiver) ==> o.lenOut == lenReceiver
    ensures !QueryMode(mech, output, lenReceiver) && o.rv == Ok ==>
              EncryptRequestValid(platform.gcmParamsSize, mech, blob, data, dataLen, output, lenReceiver)
    ensures !QueryMode(mech, output, lenReceiver)
            && !EncryptRequestValid(platform.gcmParamsSize, mech, blob, data, dataLen, output, lenReceiver)
            ==> o.rv == ArgumentsBad || o.rv == MechanismInvalid
  {
    Perform(platform, EncryptGate(platform.gcmParamsSize, mech, blob, data, dataLen, output, lenReceiver), lenReceiver)
  }

  function Decrypt(platform: Platform, mech: Option<Mechanism>, blob: Option<KeyBlob>,
                   input: Option<Bytes>, inputLen: ULong,
                   output: Option<Bytes>, lenReceiver: Option<ULong>): (o: Outcome)
    requires DecryptParamsReadable(platform.gcmParamsSize, mech, blob, input, output, lenReceiver)
    ensures DecryptQueryAnswerable(mech, output, lenReceiver, inputLen) ==>
              o.rv == Ok && o.lenOut.Some? && o.lenOut.value + AesGcmOverhead == inputLen
    ensures !DecryptQueryAnswerable(mech, output, lenReceiver, inputLen) ==> o.lenOut == lenReceiver
    ensures o.rv == Ok ==>
              DecryptQueryAnswerable(mech, output, lenReceiver, inputLen)
              || DecryptRequestValid(platform.gcmParamsSize, mech, blob, input, output, lenReceiver)
    ensures !DecryptQueryAnswerable(mech, output, lenReceiver, inputLen)
            && !DecryptRequestValid(platform.gcmParamsSize, mech, blob, input, output, lenReceiver)
            ==> o.rv == ArgumentsBad || o.rv == MechanismInvalid
  {
    Perform(platform, DecryptGate(platform.gcmParamsSize, mech, blob, input, inputLen, output, lenReceiver), lenReceiver)
  }

  function GenerateDataKey(platform: Platform, mech: Option<Mechanism>, masterKey: Option<KeyBlob>,
                           plainKey: Option<Bytes>, plainKeyLen: ULong,
                           output: Option<Bytes>, lenReceiver: Option<ULong>): (o: Outcome)
    requires DataKeyParamsReadable(platform.gcmParamsSize, mech, masterKey, plainKeyLen, output, lenReceiver)
    ensures QueryMode(masterKey, output, lenReceiver) ==>
              o.rv == platform.encryptLen(masterKey.value.keyType, plainKeyLen).rv
    ensures !QueryMode(masterKey, output, lenReceiver) ==> o.lenOut == lenReceiver
    ensures !QueryMode(masterKey, output, lenReceiver) && o.rv == Ok ==>
              DataKeyRequestValid(platform.gcmParamsSize, mech, masterKey, plainKeyLen, output, lenReceiver)
    ensures !QueryMode(masterKey, output, lenReceiver)
            && !DataKeyRequestValid(platform.gcmParamsSize, mech, masterKey, plainKeyLen, output, lenReceiver)
            ==> o.rv == ArgumentsBad || o.rv == MechanismInvalid
  {
    Perform(platform, DataKeyGate(platform.gcmParamsSize, mech, masterKey, plainKey, plainKeyLen, output, lenReceiver),
            lenReceiver)
  }

  /** GenerateDataKey with no plaintext-key buffer: the caller only ever receives the encrypted data key. */
  function GenerateDataKeyWithoutPlaintext(platform: Platform, mech: Option<Mechanism>, masterKey: Option<KeyBlob>,
                                           plainKeyLen: ULong, output: Option<Bytes>,
                                           lenReceiver: Option<ULong>): (o: Outcome)
    requires DataKeyParamsReadable(platform.gcmParamsSize, mech, masterKey, plainKeyLen, output, lenReceiver)
    ensures !QueryMode(masterKey, output, lenReceiver) && o.rv == Ok ==>
              && DataKeyRequestValid(platform.gcmParamsSize, mech, masterKey, plainKeyLen, output, lenReceiver)
              && Succeeded(platform.ecall(SgxGenerateDataKey(AesGcm128, masterKey.value.keyData, masterKey.value.keyLen,
                                                          mech.value.parameter.value.aad,
                                                          mech.value.parameter.value.aadLen,
                                                          None, plainKeyLen, output.value, lenReceiver.value)).status)
  {
    GenerateDataKey(platform, mech, masterKey, None, plainKeyLen, output, lenReceiver)
  }
}
