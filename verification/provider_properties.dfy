/**
  Properties of the request gate that relate several calls, several
  platforms or several argument combinations: which requests are answered
  without the enclave, which result codes can arise where, and how the
  size-query conventions behave.
 */
module ProviderProperties {
  import opened Wrappers
  import opened EnclaveHsm
  import opened Boundary
  import opened Validation
  import opened Provider

  /** Two platforms that agree on the ABI but may disagree on everything the enclave and helper do. */
  predicate SameAbi(p1: Platform, p2: Platform) {
    p1.gcmParamsSize == p2.gcmParamsSize
  }

  // ---------------------------------------------------------------- CreateKey

  /**
    A bad origin or an absent blob is answered with ArgumentsBad and the blob
    untouched; an unsupported key spec with MechanismInvalid and the key type
    already overwritten. Neither consults the enclave.
   */
  lemma CreateKeyRejectsLocally(p1: Platform, p2: Platform, keySpec: MechanismType, origin: KeyOrigin,
                                blob: Option<KeyBlob>)
    requires origin != InternalKey || blob.None? || keySpec != AesGcm128
    ensures CreateKey(p1, keySpec, origin, blob) == CreateKey(p2, keySpec, origin, blob)
    ensures origin != InternalKey || blob.None? ==> CreateKey(p1, keySpec, origin, blob) == KeyOutcome(ArgumentsBad, blob)
    ensures origin == InternalKey && blob.Some? ==>
              CreateKey(p1, keySpec, origin, blob) == KeyOutcome(MechanismInvalid, Some(blob.value.(keyType := keySpec)))
  {
  }

  /** For a supported request the result is OK exactly when both enclave statuses are success. */
  lemma CreateKeyCollapsesStatuses(p: Platform, blob: KeyBlob)
    ensures var o := CreateKey(p, AesGcm128, InternalKey, Some(blob));
            var reply := p.ecall(SgxCreateAesKey(blob.keyData, blob.keyLen, blob.keyData.None?));
            && (o.rv == Ok <==> reply.status.transport == SgxSuccess && reply.status.inner == SgxSuccess)
            && (o.rv != Ok ==> o.rv == FunctionFailed)
            && o.blob == Some(blob.(keyType := AesGcm128,
                                    keyLen := if blob.keyData.None? then reply.reportedKeyLen else blob.keyLen))
  {
  }

  // ---------------------------------------------------------------- status collapse

  lemma EncryptCollapsesStatuses(p: Platform, mech: Option<Mechanism>, blob: Option<KeyBlob>,
                                 data: Option<Bytes>, dataLen: ULong, output: Option<Bytes>, lenReceiver: Option<ULong>)
    requires EncryptRequestValid(p.gcmParamsSize, mech, blob, data, dataLen, output, lenReceiver)
    ensures var o := Encrypt(p, mech, blob, data, dataLen, output, lenReceiver);
            var gcm := mech.value.parameter.value;
            var reply := p.ecall(SgxAesEncrypt(gcm.aad, gcm.aadLen, blob.value.keyData, blob.value.keyLen,
                                               data.value, dataLen, output.value, lenReceiver.value));
            && (o.rv == Ok <==> reply.status.transport == SgxSuccess && reply.status.inner == SgxSuccess)
            && (o.rv != Ok ==> o.rv == FunctionFailed)
            && o.lenOut == lenReceiver
  {
  }

  lemma DecryptCollapsesStatuses(p: Platform, mech: Option<Mechanism>, blob: Option<KeyBlob>,
                                 input: Option<Bytes>, inputLen: ULong, output: Option<Bytes>, lenReceiver: Option<ULong>)
    requires DecryptRequestValid(p.gcmParamsSize, mech, blob, input, output, lenReceiver)
    ensures var o := Decrypt(p, mech, blob, input, inputLen, output, lenReceiver);
            var gcm := mech.value.parameter.value;
            var reply := p.ecall(SgxAesDecrypt(gcm.aad, gcm.aadLen, blob.value.keyData, blob.value.keyLen,
                                               input.value, inputLen, output.value, lenReceiver.value));
            && (o.rv == Ok <==> reply.status.transport == SgxSuccess && reply.status.inner == SgxSuccess)
            && (o.rv != Ok ==> o.rv == FunctionFailed)
            && o.lenOut == lenReceiver
  {
  }

  lemma DataKeyCollapsesStatuses(p: Platform, mech: Option<Mechanism>, masterKey: Option<KeyBlob>,
                                 plainKey: Option<Bytes>, plainKeyLen: ULong,
                                 output: Option<Bytes>, lenReceiver: Option<ULong>)
    requires DataKeyRequestValid(p.gcmParamsSize, mech, masterKey, plainKeyLen, output, lenReceiver)
    ensures var o := GenerateDataKey(p, mech, masterKey, plainKey, plainKeyLen, output, lenReceiver);
            var gcm := mech.value.parameter.value;
            var reply := p.ecall(SgxGenerateDataKey(AesGcm128, masterKey.value.keyData, masterKey.value.keyLen,
                                                    gcm.aad, gcm.aadLen, plainKey, plainKeyLen,
                                                    output.value, lenReceiver.value));
            && (o.rv == Ok <==> reply.status.transport == SgxSuccess && reply.status.inner == SgxSuccess)
            && (o.rv != Ok ==> o.rv == FunctionFailed)
            && o.lenOut == lenReceiver
  {
  }

  // ---------------------------------------------------------------- local rejections

  /**
    A real (non-query) request that fails validation is answered without the
    enclave: its outcome is the same on every platform with the same ABI, and
    the length receiver keeps its value.
   */
  lemma InvalidRequestsNeverReachEnclave(p1: Platform, p2: Platform, mech: Option<Mechanism>, blob: Option<KeyBlob>,
                                         buffer: Option<Bytes>, len: ULong,
                                         output: Option<Bytes>, lenReceiver: Option<ULong>)
    requires SameAbi(p1, p2)
    ensures EncryptParamsReadable(p1.gcmParamsSize, mech, blob, buffer, len, output, lenReceiver)
            && !QueryMode(mech, output, lenReceiver)
            && !EncryptRequestValid(p1.gcmParamsSize, mech, blob, buffer, len, output, lenReceiver)
            ==> Encrypt(p1, mech, blob, buffer, len, output, lenReceiver)
                == Encrypt(p2, mech, blob, buffer, len, output, lenReceiver)
                == Outcome(Encrypt(p1, mech, blob, buffer, len, output, lenReceiver).rv, lenReceiver)
    ensures DecryptParamsReadable(p1.gcmParamsSize, mech, blob, buffer, output, lenReceiver)
            && !DecryptQueryAnswerable(mech, output, lenReceiver, len)
            && !DecryptRequestValid(p1.gcmParamsSize, mech, blob, buffer, output, lenReceiver)
            ==> Decrypt(p1, mech, blob, buffer, len, output, lenReceiver)
                == Decrypt(p2, mech, blob, buffer, len, output, lenReceiver)
                == Outcome(Decrypt(p1, mech, blob, buffer, len, output, lenReceiver).rv, lenReceiver)
    ensures DataKeyParamsReadable(p1.gcmParamsSize, mech, blob, len, output, lenReceiver)
            && !QueryMode(blob, output, lenReceiver)
            && !DataKeyRequestValid(p1.gcmParamsSize, mech, blob, len, output, lenReceiver)
            ==> GenerateDataKey(p1, mech, blob, buffer, len, output, lenReceiver)
                == GenerateDataKey(p2, mech, blob, buffer, len, output, lenReceiver)
                == Outcome(GenerateDataKey(p1, mech, blob, buffer, len, output, lenReceiver).rv, lenReceiver)
  {
  }

  /**
    The key binding is checked before the mechanism is dispatched: a real
    request whose mechanism differs from its key's type is ArgumentsBad,
    whatever the mechanism, in all three data operations.
   */
  lemma KeyMismatchIsArgumentsBad(p: Platform, mech: Mechanism, blob: KeyBlob,
                                  buffer: Option<Bytes>, len: ULong,
                                  output: Option<Bytes>, lenReceiver: Option<ULong>)
    requires mech.mechanism != blob.keyType
    ensures !QueryMode(Some(mech), output, lenReceiver) ==>
              Encrypt(p, Some(mech), Some(blob), buffer, len, output, lenReceiver).rv == ArgumentsBad
    ensures !DecryptQueryAnswerable(Some(mech), output, lenReceiver, len) ==>
              Decrypt(p, Some(mech), Some(blob), buffer, len, output, lenReceiver).rv == ArgumentsBad
    ensures !QueryMode(Some(blob), output, lenReceiver) ==>
              GenerateDataKey(p, Some(mech), Some(blob), buffer, len, output, lenReceiver).rv == ArgumentsBad
  {
  }

  /**
    MechanismInvalid comes out of a real request only when an unsupported
    mechanism matches its key's type and every pointer is present.
   */
  lemma MechanismInvalidOnlyForBoundUnsupported(p: Platform, mech: Option<Mechanism>, blob: Option<KeyBlob>,
                                                buffer: Option<Bytes>, len: ULong,
                                                output: Option<Bytes>, lenReceiver: Option<ULong>)
    ensures EncryptParamsReadable(p.gcmParamsSize, mech, blob, buffer, len, output, lenReceiver)
            && !QueryMode(mech, output, lenReceiver)
            && Encrypt(p, mech, blob, buffer, len, output, lenReceiver).rv == MechanismInvalid
            ==> CipherArgumentsPresent(mech, blob, buffer, output, lenReceiver) && mech.value.mechanism != AesGcm128
    ensures DecryptParamsReadable(p.gcmParamsSize, mech, blob, buffer, output, lenReceiver)
            && Decrypt(p, mech, blob, buffer, len, output, lenReceiver).rv == MechanismInvalid
            ==> CipherArgumentsPresent(mech, blob, buffer, output, lenReceiver) && mech.value.mechanism != AesGcm128
    ensures DataKeyParamsReadable(p.gcmParamsSize, mech, blob, len, output, lenReceiver)
            && !QueryMode(blob, output, lenReceiver)
            && GenerateDataKey(p, mech, blob, buffer, len, output, lenReceiver).rv == MechanismInvalid
            ==> && DataKeyLenValid(len)
                && DataKeyArgumentsPresent(mech, blob, output, lenReceiver)
                && mech.value.mechanism != AesGcm128
  {
  }

  /**
    A bound AES-GCM request whose parameter length is wrong, or whose AAD
    pointer and AAD length disagree, is ArgumentsBad in all three data operations.
   */
  lemma GcmParamViolationsAreArgumentsBad(p: Platform, mech: Mechanism, blob: KeyBlob,
                                          buffer: Option<Bytes>, len: ULong,
                                          output: Option<Bytes>, lenReceiver: Option<ULong>)
    requires mech.mechanism == AesGcm128 == blob.keyType
    requires || mech.parameterLen != p.gcmParamsSize
             || (mech.parameter.Some? && mech.parameter.value.aadLen != 0 && mech.parameter.value.aad.None?)
             || (mech.parameter.Some? && mech.parameter.value.aadLen == 0 && mech.parameter.value.aad.Some?)
    ensures !QueryMode(Some(mech), output, lenReceiver) ==>
              Encrypt(p, Some(mech), Some(blob), buffer, len, output, lenReceiver) == Outcome(ArgumentsBad, lenReceiver)
    ensures !DecryptQueryAnswerable(Some(mech), output, lenReceiver, len) ==>
              Decrypt(p, Some(mech), Some(blob), buffer, len, output, lenReceiver) == Outcome(ArgumentsBad, lenReceiver)
    ensures !QueryMode(Some(blob), output, lenReceiver) ==>
              GenerateDataKey(p, Some(mech), Some(blob), buffer, len, output, lenReceiver)
              == Outcome(ArgumentsBad, lenReceiver)
  {
  }

  // ---------------------------------------------------------------- length bounds

  /** Encrypt refuses more than 6144 bytes of plaintext and lets exactly 6144 through. */
  lemma EncryptSizeLimit(p: Platform, mech: Option<Mechanism>, blob: Option<KeyBlob>, data: Option<Bytes>,
                         output: Option<Bytes>, lenReceiver: Option<ULong>, dataLen: ULong)
    requires EncryptParamsReadable(p.gcmParamsSize, mech, blob, data, dataLen, output, lenReceiver)
    requires !QueryMode(mech, output, lenReceiver)
    ensures dataLen > 6144 ==> Encrypt(p, mech, blob, data, dataLen, output, lenReceiver).rv != Ok
    ensures dataLen > 6144 && CipherArgumentsPresent(mech, blob, data, output, lenReceiver)
            && mech.value.mechanism == AesGcm128
            ==> Encrypt(p, mech, blob, data, dataLen, output, lenReceiver) == Outcome(ArgumentsBad, lenReceiver)
    ensures dataLen == 6144
            && CipherArgumentsPresent(mech, blob, data, output, lenReceiver)
            && mech.value.mechanism == AesGcm128 && GcmParamsValid(mech.value, p.gcmParamsSize)
            ==> EncryptGate(p.gcmParamsSize, mech, blob, data, dataLen, output, lenReceiver).Forward?
  {
  }

  /** Decrypt puts no upper bound on the ciphertext: a valid request of any length reaches the enclave. */
  lemma DecryptHasNoSizeLimit(p: Platform, mech: Option<Mechanism>, blob: Option<KeyBlob>, input: Option<Bytes>,
                              inputLen: ULong, output: Option<Bytes>, lenReceiver: Option<ULong>)
    requires DecryptRequestValid(p.gcmParamsSize, mech, blob, input, output, lenReceiver)
    ensures DecryptGate(p.gcmParamsSize, mech, blob, input, inputLen, output, lenReceiver).Forward?
  {
  }

  // ---------------------------------------------------------------- size queries

  /**
    Encrypt's size query is handed to the encrypted-length helper as is: the
    key blob, the data pointer, the length bound and the GCM parameters play
    no part, and the helper's code is the answer.
   */
  lemma EncryptQueryDelegates(p: Platform, mech: Mechanism, blob1: Option<KeyBlob>, blob2: Option<KeyBlob>,
                              data1: Option<Bytes>, data2: Option<Bytes>, dataLen: ULong, receiver: ULong)
    ensures var o := Encrypt(p, Some(mech), blob1, data1, dataLen, None, Some(receiver));
            var reply := p.encryptLen(mech.mechanism, dataLen);
            && o == Encrypt(p, Some(mech), blob2, data2, dataLen, None, Some(receiver))
            && o.rv == reply.rv
            && o.lenOut == (if reply.len.Some? then reply.len else Some(receiver))
  {
  }

  /**
    Decrypt's size query for AES-GCM with a ciphertext longer than IV and tag
    is answered locally with the plaintext length, needing neither a key blob
    nor a ciphertext pointer.
   */
  lemma DecryptQueryNeedsNoKey(p: Platform, mech: Mechanism, blob: Option<KeyBlob>, input: Option<Bytes>,
                               inputLen: ULong, receiver: ULong)
    requires mech.mechanism == AesGcm128 && inputLen > AesGcmIvSize + AesGcmMacSize
    ensures Decrypt(p, Some(mech), blob, input, inputLen, None, Some(receiver))
            == Outcome(Ok, Some(inputLen - AesGcmIvSize - AesGcmMacSize))
  {
  }

  /**
    Every other Decrypt size query falls through to the pointer checks and is
    ArgumentsBad, a non-GCM mechanism included: it never sees MechanismInvalid.
   */
  lemma DecryptQueryOtherwiseArgumentsBad(p: Platform, mech: Mechanism, blob: Option<KeyBlob>, input: Option<Bytes>,
                                          inputLen: ULong, receiver: ULong)
    requires mech.mechanism != AesGcm128 || inputLen <= AesGcmIvSize + AesGcmMacSize
    ensures Decrypt(p, Some(mech), blob, input, inputLen, None, Some(receiver)) == Outcome(ArgumentsBad, Some(receiver))
  {
  }

  /**
    GenerateDataKey's size query is keyed on the master key blob: it asks
    the helper about the blob's key type, so the mechanism (even an absent
    one), the plaintext buffer and the data-key length bounds play no part.
   */
  lemma DataKeyQueryIgnoresMechanism(p: Platform, mech1: Option<Mechanism>, mech2: Option<Mechanism>,
                                     plain1: Option<Bytes>, plain2: Option<Bytes>,
                                     masterKey: KeyBlob, plainKeyLen: ULong, receiver: ULong)
    ensures var o := GenerateDataKey(p, mech1, Some(masterKey), plain1, plainKeyLen, None, Some(receiver));
            && o == GenerateDataKey(p, mech2, Some(masterKey), plain2, plainKeyLen, None, Some(receiver))
            && o.rv == p.encryptLen(masterKey.keyType, plainKeyLen).rv
  {
  }

  // ---------------------------------------------------------------- data keys

  /**
    Outside a size query the data-key length is checked first: 0 or more
    than 1024 is ArgumentsBad before any pointer is looked at, even for a
    bound unsupported mechanism that would otherwise be MechanismInvalid.
   */
  lemma DataKeyLengthCheckedFirst(p: Platform, mech: Option<Mechanism>, masterKey: Option<KeyBlob>,
                                  plainKey: Option<Bytes>, plainKeyLen: ULong,
                                  output: Option<Bytes>, lenReceiver: Option<ULong>)
    requires !QueryMode(masterKey, output, lenReceiver)
    requires plainKeyLen == 0 || plainKeyLen > 1024
    ensures GenerateDataKey(p, mech, masterKey, plainKey, plainKeyLen, output, lenReceiver)
            == Outcome(ArgumentsBad, lenReceiver)
  {
  }

  /**
    The plaintext-key buffer is never required: with or without it the gate
    takes the same decision, and only the call it forwards differs, in that buffer alone.
   */
  lemma PlainKeyBufferNeverRequired(paramsSize: ULong, mech: Option<Mechanism>, masterKey: Option<KeyBlob>,
                                    plainKey: Bytes, plainKeyLen: ULong,
                                    output: Option<Bytes>, lenReceiver: Option<ULong>)
    requires DataKeyParamsReadable(paramsSize, mech, masterKey, plainKeyLen, output, lenReceiver)
    ensures var withBuffer := DataKeyGate(paramsSize, mech, masterKey, Some(plainKey), plainKeyLen, output, lenReceiver);
            var without := DataKeyGate(paramsSize, mech, masterKey, None, plainKeyLen, output, lenReceiver);
            && withBuffer.Forward? == without.Forward?
            && (!withBuffer.Forward? ==> withBuffer == without)
            && (withBuffer.Forward? ==> withBuffer.call == without.call.(plainKey := Some(plainKey)))
  {
  }

  /**
    GenerateDataKeyWithoutPlaintext is GenerateDataKey with no plaintext
    buffer, so the enclave is never handed a place to put the plaintext key.
   */
  lemma WithoutPlaintextNeverExposesKey(p: Platform, mech: Option<Mechanism>, masterKey: Option<KeyBlob>,
                                        plainKeyLen: ULong, output: Option<Bytes>, lenReceiver: Option<ULong>)
    requires DataKeyParamsReadable(p.gcmParamsSize, mech, masterKey, plainKeyLen, output, lenReceiver)
    ensures GenerateDataKeyWithoutPlaintext(p, mech, masterKey, plainKeyLen, output, lenReceiver)
            == GenerateDataKey(p, mech, masterKey, None, plainKeyLen, output, lenReceiver)
    ensures var d := DataKeyGate(p.gcmParamsSize, mech, masterKey, None, plainKeyLen, output, lenReceiver);
            d.Forward? ==> d.call.plainKey.None?
  {
  }
}
