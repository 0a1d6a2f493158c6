/**
  Types and constants of the enclave HSM interface header: mechanism
  identifiers, key origins, the mechanism, GCM-parameter and key-blob records,
  the result-code taxonomy and the AES-GCM size constants.
 */
module EnclaveHsm {
  import opened Wrappers

  /** `EH_ULONG` is an `unsigned long`: 64 bits wide on the platforms the enclave targets. */
  const ULongLimit: int := 0x1_0000_0000_0000_0000
  type ULong = x: int | 0 <= x < ULongLimit

  type Byte = x: int | 0 <= x < 256

  /** The contents of a caller-owned buffer; this layer never inspects them. */
  type Bytes = seq<Byte>

  /** A mechanism identifier; a key blob's key type is drawn from the same domain. */
  type MechanismType = ULong

  const AesGcm128: MechanismType := 0
  const Sm4: MechanismType := 1
  const Rsa3072: MechanismType := 2

  /** Where key material comes from: generated inside the enclave, or supplied by the caller. */
  datatype KeyOrigin = InternalKey | ExternalKey

  /** `EH_GCM_PARAMS`: the additional authenticated data and its length. */
  datatype GcmParams = GcmParams(aad: Option<Bytes>, aadLen: ULong)

  /**
    `EH_MECHANISM`: an identifier, the parameter record it points at (only the
    AES-GCM shape is ever read) and the length the caller claims for it.
   */
  datatype Mechanism = Mechanism(mechanism: MechanismType, parameter: Option<GcmParams>, parameterLen: ULong)

  /** `EH_KEY_BLOB`: the key type, the key length and the opaque key material. */
  datatype KeyBlob = KeyBlob(keyType: MechanismType, keyLen: ULong, keyData: Option<Bytes>)

  const AesGcmIvSize: ULong := 12
  const AesGcmMacSize: ULong := 16

  /** The fixed number of bytes AES-GCM adds to a plaintext: the IV in front, the tag behind. */
  const AesGcmOverhead: ULong := AesGcmIvSize + AesGcmMacSize

  /** The largest plaintext one Encrypt call accepts. */
  const EncryptMaxSize: ULong := 6 * 1024

  /** `EH_RV`: the result code every public call returns. */
  datatype Rv = Ok | MechanismInvalid | DeviceMemory | DeviceError | GeneralError | FunctionFailed | ArgumentsBad

  /** The integer the interface assigns to a result code. */
  function RvCode(rv: Rv): (c: ULong)
    ensures c == 0 <==> rv == Ok
    ensures c != 4 && c <= 7
  {
    match rv
    case Ok => 0
    case MechanismInvalid => 1
    case DeviceMemory => 2
    case DeviceError => 3
    case GeneralError => 5
    case FunctionFailed => 6
    case ArgumentsBad => 7
  }

  /** Reads an integer back as a result code; values the interface does not assign yield `None`. */
  function RvOfCode(c: ULong): (r: Option<Rv>)
    ensures r.Some? <==> c <= 7 && c != 4
    ensures r.Some? ==> RvCode(r.value) == c
  {
    match c
    case 0 => Some(Ok)
    case 1 => Some(MechanismInvalid)
    case 2 => Some(DeviceMemory)
    case 3 => Some(DeviceError)
    case 5 => Some(GeneralError)
    case 6 => Some(FunctionFailed)
    case 7 => Some(ArgumentsBad)
    case _ => None
  }

  /** Every result code survives the trip to its integer and back, so no two codes share a value. */
  lemma RvCodeRoundTrip(rv: Rv)
    ensures RvOfCode(RvCode(rv)) == Some(rv)
    ensures forall other: Rv :: RvCode(other) == RvCode(rv) ==> other == rv
  {
  }

  /**
    The constants of the header: distinct mechanism ids, the 28-byte GCM
    overhead, the 6 KiB encrypt limit, and a key origin that is one of two values.
   */
  lemma HeaderConstants(origin: KeyOrigin)
    ensures AesGcm128 == 0 && Sm4 == 1 && Rsa3072 == 2
    ensures AesGcm128 != Sm4 && Sm4 != Rsa3072 && AesGcm128 != Rsa3072
    ensures AesGcmOverhead == 28
    ensures EncryptMaxSize == 6144
    ensures origin == InternalKey || origin == ExternalKey
  {
  }
}
