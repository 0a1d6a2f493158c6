# Enclave HSM provider: the request gate

This project models the caller-facing layer of an enclave-backed HSM: the
`EHsmProvider` calls `Initialize`, `Finalize`, `CreateKey`, `Encrypt`,
`Decrypt`, `GenerateDataKey` and `GenerateDataKeyWithoutPlaintext`, with the
types, result codes and size constants of the `EnclaveHsm.h` interface
header. For every call the gate decides, from its arguments alone, one of
these outcomes:

- it rejects the request locally with a result code;
- it answers a buffer-size query;
- it forwards exactly one call across the enclave boundary. The enclave's
  two statuses (the transport status of the ecall and the status of the
  enclave function) are then folded into one result code.

Layout, one module per file:

- `wrappers.dfy` (`Wrappers`): `Option`, which stands for every nullable pointer.
- `enclave_hsm.dfy` (`EnclaveHsm`): the header. It holds `EH_ULONG` as a
  64-bit `ULong`, the mechanism ids, `KeyOrigin`, `GcmParams`, `Mechanism`,
  `KeyBlob`, the `Rv` result codes with their integer values, and the
  AES-GCM IV/MAC and encrypt-size constants.
- `boundary.dfy` (`Boundary`): the enclave calls as a `Call` datatype, their
  two statuses, and `Collapse`. It also holds `Platform`, an uninterpreted
  record of the collaborators. These are the four ecalls, the
  encrypted-length helper `EnclaveHelpers::getEncryptLen`, and
  `sizeof(EH_GCM_PARAMS)`.
- `validation.dfy` (`Validation`): the validation rules stated
  declaratively. They define when a call is a size query, when a real
  request is fit for the enclave, and what the caller must guarantee before
  a GCM parameter record is read.
- `provider.dfy` (`Provider`): the gate. The `*Gate` functions follow the
  C++ code's ordered checks and return a `Decision`. `Perform` carries the
  decision out against a `Platform`, and the public calls are
  `Perform ∘ Gate`. Each gate's contract ties it to the declarative rules.
  A request reaches the enclave exactly when it is valid, MechanismInvalid
  arises exactly for a bound, unsupported mechanism, and otherwise the
  result is ArgumentsBad.
- `session.dfy` (`Session`): the loaded/unloaded machine behind
  `Initialize`/`Finalize`, with a load-attempt oracle. It proves that over
  any sequence of lifecycle calls, loads and unloads balance.
- `provider_properties.dfy` (`ProviderProperties`): properties relating
  several calls, platforms or argument combinations.

Collaborators whose code is not part of this model are parameters. Each
property is proved for every `Platform`. These collaborators are the
`sgx_create_aes_key`, `sgx_aes_encrypt`, `sgx_aes_decrypt` and
`sgx_generate_datakey` ecalls, `EnclaveHelpers::getEncryptLen`, and the
enclave load attempt.

Behaviour of the code that the model follows:

- Only `Initialize` and `Finalize` look at the loaded state. The data
  operations do not check it, so the model has no "must be loaded" rule.
- A real Encrypt/Decrypt/GenerateDataKey passes `*pulLen` by value to the
  enclave. The gate therefore never writes the caller's length receiver on
  that path; only the size queries write it.
- Encrypt and GenerateDataKey do not compute their size-query answers
  locally. They delegate them to `getEncryptLen`, whose body is not part of
  this model.
- In a non-query request the key binding is checked before the mechanism is
  dispatched. A mechanism/key-type mismatch is therefore ArgumentsBad even
  when the mechanism is unsupported.
- A Decrypt size query for a mechanism other than AES-GCM falls through to
  the pointer checks and yields ArgumentsBad, never MechanismInvalid.

## Model

| member | source | states |
|---|---|---|
| EnclaveHsm.RvCode | trusted/EnclaveHsm.h:84-92 | a result code's integer is 0 exactly for OK, is at most 7 and is never 4 |
| EnclaveHsm.RvOfCode | trusted/EnclaveHsm.h:84-92 | an integer names a result code exactly when it is at most 7 and not 4, and then that code's integer is the input |
| EnclaveHsm.RvCodeRoundTrip | trusted/EnclaveHsm.h:84-92 | every result code survives the trip to its integer and back, so no two codes share an integer |
| EnclaveHsm.HeaderConstants | trusted/EnclaveHsm.h:42-94 | AES-GCM-128, SM4 and RSA-3072 are 0, 1 and 2 and pairwise distinct; IV + MAC is 28 bytes; the encrypt limit is 6144 bytes; a key origin is internal or external |
| Boundary.Collapse | untrusted/EHsmProvider.cpp:95-98 | the folded code is OK exactly when both the transport and the enclave status are success, and FunctionFailed otherwise |
| Provider.GcmCheck | untrusted/EHsmProvider.cpp:128-140 | the three GCM checks pass exactly when the parameter length equals the record size and the AAD is present exactly when its length is nonzero; a failing check gives ArgumentsBad |
| Provider.EncryptGate | untrusted/EHsmProvider.cpp:109-155 | a size query is delegated with the mechanism id and data length. Otherwise the request is forwarded exactly when it is a valid AES-GCM request of at most 6144 bytes, and the forwarded call carries the caller's AAD, key, data and length. MechanismInvalid arises exactly for a bound, fully present request with an unsupported mechanism; every other rejection is ArgumentsBad |
| Provider.DecryptGate | untrusted/EHsmProvider.cpp:171-216 | an AES-GCM size query with a ciphertext longer than 28 bytes reports a length that, plus 28, is the ciphertext length. Decrypt never delegates. A request is forwarded exactly when it is valid, with no length bound. MechanismInvalid arises exactly for a bound, fully present, unsupported mechanism; otherwise ArgumentsBad |
| Provider.DataKeyGate | untrusted/EHsmProvider.cpp:237-275 | a query anchored on the master key blob is delegated with the blob's key type. Otherwise the request is forwarded exactly when it is valid: data-key length in 1..1024, pointers present, key bound, AES-GCM, GCM params valid. The forwarded call carries the caller's plaintext buffer unchanged. MechanismInvalid arises exactly for a valid-length, bound, unsupported mechanism |
| Provider.Perform | untrusted/EHsmProvider.cpp:157-160 | a rejection returns its code and leaves the receiver alone; a local query answer writes its length with OK; a delegated query returns the helper's code. A forwarded call leaves the receiver alone and is OK exactly when the enclave succeeded, FunctionFailed otherwise |
| Provider.CreateKey | untrusted/EHsmProvider.cpp:62-99 | an external origin or an absent blob gives ArgumentsBad with the blob untouched. Otherwise the key type is set to the spec before dispatch, and a non-AES spec gives MechanismInvalid with only the key type changed. The key length changes only when no key material is given. OK needs an internal AES-GCM request that the enclave completed |
| Provider.Encrypt | untrusted/EHsmProvider.cpp:101-161 | a size query returns the helper's code. A real call never writes the length receiver, and returns OK only for a valid request. An invalid real request gives ArgumentsBad or MechanismInvalid |
| Provider.Decrypt | untrusted/EHsmProvider.cpp:163-222 | a locally answerable query gives OK and a length that, plus 28, is the ciphertext length; OK otherwise needs a valid request. A request that is neither a locally answerable query nor valid gives ArgumentsBad or MechanismInvalid and leaves the receiver alone |
| Provider.GenerateDataKey | untrusted/EHsmProvider.cpp:224-293 | a query on the master key returns the helper's code for the blob's key type. A real call never writes the length receiver, and returns OK only for a valid request. An invalid real request gives ArgumentsBad or MechanismInvalid |
| Provider.GenerateDataKeyWithoutPlaintext | untrusted/EHsmProvider.cpp:295-303 | a real call that returns OK was a valid request whose enclave call had no plaintext-key buffer and succeeded |
| Session.Initialize | untrusted/EHsmProvider.cpp:37-50 | the result is OK exactly when the enclave ends up loaded. A loaded enclave gives OK with no change whatever the load attempt would do. An unloaded one loads exactly when the attempt succeeds, and otherwise gives DeviceError and stays unloaded |
| Session.Finalize | untrusted/EHsmProvider.cpp:52-60 | after Finalize nothing is loaded, whatever the state before |
| Session.LoadsBalanceUnloads | untrusted/EHsmProvider.cpp:37-60 | over any sequence of lifecycle calls, loads plus the enclave live at the start equal unloads plus the enclave live at the end: loads and unloads alternate |
| Session.LoadsNeedSuccessfulInits | untrusted/EHsmProvider.cpp:37-60 | over any sequence of lifecycle calls, there are no more loads than Initialize calls whose load attempt succeeds, and no more unloads than Finalize calls: only a successful load attempt brings the enclave up, and only Finalize takes it down |
| Session.ReplayUpIff | untrusted/EHsmProvider.cpp:37-60 | after any sequence of lifecycle calls the enclave is up exactly when an Initialize with a successful load attempt is followed by no Finalize, or it was up at the start and no Finalize came |
| Session.InitializeWhenLoadedIsNoOp | untrusted/EHsmProvider.cpp:41-49 | on a loaded enclave, an Initialize in front of any sequence of calls changes neither the final state nor the number of loads |
| Session.FinalizeIdempotent | untrusted/EHsmProvider.cpp:56-59 | two Finalize calls in a row act like one: same final state, and the second unloads nothing |
| ProviderProperties.CreateKeyRejectsLocally | untrusted/EHsmProvider.cpp:69-93 | a bad origin, an absent blob or a non-AES spec gives the same outcome on every platform. Bad origin or absent blob: ArgumentsBad with the blob untouched. Non-AES spec: MechanismInvalid with the key type overwritten |
| ProviderProperties.CreateKeyCollapsesStatuses | untrusted/EHsmProvider.cpp:73-98 | an internal AES-GCM create is OK exactly when both enclave statuses are success, and FunctionFailed otherwise. The blob gets the new key type and, only when it had no key material, the length the enclave reports |
| ProviderProperties.EncryptCollapsesStatuses | untrusted/EHsmProvider.cpp:142-160 | a valid Encrypt is OK exactly when both statuses of `sgx_aes_encrypt` are success, FunctionFailed otherwise; the length receiver keeps its value |
| ProviderProperties.DecryptCollapsesStatuses | untrusted/EHsmProvider.cpp:203-221 | a valid Decrypt is OK exactly when both statuses of `sgx_aes_decrypt` are success, FunctionFailed otherwise; the length receiver keeps its value |
| ProviderProperties.DataKeyCollapsesStatuses | untrusted/EHsmProvider.cpp:277-292 | a valid GenerateDataKey is OK exactly when both statuses of `sgx_generate_datakey` are success, FunctionFailed otherwise; the length receiver keeps its value |
| ProviderProperties.InvalidRequestsNeverReachEnclave | untrusted/EHsmProvider.cpp:115-155 | an invalid non-query Encrypt, Decrypt or GenerateDataKey has the same outcome on every platform with the same ABI, and its length receiver keeps its value |
| ProviderProperties.KeyMismatchIsArgumentsBad | untrusted/EHsmProvider.cpp:115-119 | a non-query Encrypt, Decrypt or GenerateDataKey whose mechanism differs from the key type is ArgumentsBad, whatever the mechanism |
| ProviderProperties.MechanismInvalidOnlyForBoundUnsupported | untrusted/EHsmProvider.cpp:121-155 | a non-query MechanismInvalid from any of the three data operations means every pointer was present, the key was bound and the mechanism was not AES-GCM. For GenerateDataKey the data-key length was also valid |
| ProviderProperties.GcmParamViolationsAreArgumentsBad | untrusted/EHsmProvider.cpp:128-140 | a bound AES-GCM non-query request is ArgumentsBad, with the receiver unchanged, in all three operations when the parameter length is wrong, the AAD length is nonzero with no AAD, or AAD is given with length 0 |
| ProviderProperties.EncryptSizeLimit | untrusted/EHsmProvider.cpp:124-126 | a non-query Encrypt of more than 6144 bytes never returns OK, and is ArgumentsBad for a bound AES-GCM request; a valid request of exactly 6144 bytes is forwarded |
| ProviderProperties.DecryptHasNoSizeLimit | untrusted/EHsmProvider.cpp:181-213 | a valid Decrypt is forwarded whatever its ciphertext length |
| ProviderProperties.EncryptQueryDelegates | untrusted/EHsmProvider.cpp:109-113 | an Encrypt size query does not depend on the key blob or the data pointer. It returns the helper's code, and the receiver gets the helper's length if the helper wrote one |
| ProviderProperties.DecryptQueryNeedsNoKey | untrusted/EHsmProvider.cpp:171-179 | an AES-GCM Decrypt query with a ciphertext over 28 bytes is OK with length ciphertext − 12 − 16, whatever key blob and ciphertext pointer are given, absent included |
| ProviderProperties.DecryptQueryOtherwiseArgumentsBad | untrusted/EHsmProvider.cpp:171-185 | any other Decrypt query (non-GCM mechanism, or ciphertext of at most 28 bytes) is ArgumentsBad with the receiver unchanged, never MechanismInvalid |
| ProviderProperties.DataKeyQueryIgnoresMechanism | untrusted/EHsmProvider.cpp:237-241 | a GenerateDataKey query on a present master key has the same outcome for any mechanism (absent included) and any plaintext buffer; its code is the helper's for the blob's key type |
| ProviderProperties.DataKeyLengthCheckedFirst | untrusted/EHsmProvider.cpp:243-245 | outside a query, a data-key length of 0 or over 1024 is ArgumentsBad whatever the pointers and mechanism, with the receiver unchanged |
| ProviderProperties.PlainKeyBufferNeverRequired | untrusted/EHsmProvider.cpp:247-287 | with or without a plaintext-key buffer the data-key gate takes the same decision. Forwarded calls differ only in that buffer |
| ProviderProperties.WithoutPlaintextNeverExposesKey | untrusted/EHsmProvider.cpp:295-303 | GenerateDataKeyWithoutPlaintext is GenerateDataKey with an absent plaintext buffer, and any call it forwards carries no plaintext-key buffer |

## Left out

- The cryptography and key storage inside the enclave. The four ecalls are
  an uninterpreted `Platform.ecall`, so no encrypt/decrypt round trip is
  claimed.
- Buffer contents and byte copying. Buffers are carried to the enclave call
  unchanged, and what the enclave writes into them is not modelled. The
  exception is the key length that `sgx_create_aes_key` reports back into
  the blob.
- The body of `EnclaveHelpers::getEncryptLen` is not part of this model. It
  is `Platform.encryptLen`, which is assumed to return one of the seven
  result codes.
- `sizeof(EH_GCM_PARAMS)` depends on the platform ABI. It is
  `Platform.gcmParamsSize`.
- A NULL `pParameter` with a matching `ulParameterLen` is dereferenced by
  the C++ code, which is undefined behaviour. Each data operation instead
  requires, only on the path that reads the record, that such a mechanism
  point at one (`EncryptParamsReadable`, `DecryptParamsReadable`,
  `DataKeyParamsReadable`). Size queries, the data-key length check and the
  pointer and binding rejections carry no such requirement.
- Enclave load/unload mechanics, the process-global enclave id and any
  concurrency around it. Only a loaded/unloaded flag is kept, and the load
  attempt's success is a parameter.
- Session.Finalize: the unload call's own failure is not modelled, since
  the C++ code ignores its return value.
