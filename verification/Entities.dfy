/** The data the service works on (`types.hpp`) and the JSON trees it reads and writes. */
module Entities {
  import opened Wrappers
  import opened Numerals

  /** A JSON value; objects keep their members in order and may repeat a name. */
  datatype Json =
    | Null
    | Bool(b: bool)
    | Int(n: Int32)
    | OtherNumber(r: real)
    | Str(s: string)
    | Arr(items: seq<Json>)
    | Obj(members: seq<Member>)

  datatype Member = Member(name: string, value: Json)

  datatype StaticData = StaticData(
    authenticationMethod: string,
    encPermanentKey: Option<string>,
    authenticationManagementField: Option<string>,
    algorithmId: Option<string>,
    a4KeyInd: Option<string>,
    a4Ind: Option<string>,
    encOpcKey: Option<string>,
    encTopcKey: Option<string>,
    a4KeyV: Option<string>,
    akaAlgorithmInd: Option<string>,
    vendorSpecific: map<string, Json>)

  datatype DynamicData = DynamicData(
    sqnScheme: Option<string>, sqn: Option<string>, lastIndexesList: Option<map<string, Int32>>)

  datatype AuthSubscription = AuthSubscription(
    staticData: Option<StaticData>, dynamicData: Option<DynamicData>)

  datatype Change = Change(operation: string, resourcePath: string, authSubscription: AuthSubscription)

  datatype Legacy = Legacy(
    fSetInd: Option<Int32>, eki: Option<string>, kind: Option<Int32>, a4Ind: Option<Int32>,
    amfValue: Option<Int32>, eopc: Option<string>, seqHe: Option<string>, akaType: Option<Int32>,
    vNumber: Option<Int32>, akaAlgInd: Option<Int32>)

  /** `boost::variant<auth_subscription_t, prov_journal_t, auth_subscription_legacy_t>`. */
  datatype Resource =
    | Subscription(subscription: AuthSubscription)
    | Journal(imsiMask: string)
    | LegacySubscription(legacy: Legacy)

  type Related = map<string, Resource>

  datatype Message = ConstraintViolation | UnprocessableEntity

  /** An error: its message, the resource path it is about, and what of it is wrong. */
  datatype Error = Error(message: Message, resourcePath: string, about: string)

  const CREATE := "CREATE"
  const UPDATE := "UPDATE"
  const DELETE := "DELETE"

  predicate IsOperation(s: string) {
    s == CREATE || s == UPDATE || s == DELETE
  }

  const HTTP_OK := 200
  const HTTP_BAD_REQUEST := 400
  const HTTP_CONFLICT := 409
  const HTTP_UNPROCESSABLE_ENTITY := 422
  const HTTP_INTERNAL_SERVER_ERROR := 500

  const AUTH_SUBSCRIPTION_STATIC_DATA := "authSubscriptionStaticData"
  const AUTHENTICATION_METHOD := "authenticationMethod"
  const ENC_PERMANENT_KEY := "encPermanentKey"
  const AUTHENTICATION_MANAGEMENT_FIELD := "authenticationManagementField"
  const ALGORITHM_ID := "algorithmId"
  const A4_KEY_IND := "a4KeyInd"
  const A4_IND := "a4Ind"
  const ENC_OPC_KEY := "encOpcKey"
  const ENC_TOPC_KEY := "encTopcKey"
  const A4_KEY_V := "a4KeyV"
  const AKA_ALGORITHM_IND := "akaAlgorithmInd"
  const AKA_TYPE := "AKATYPE"
  const RELATED_RESOURCE := "relatedResource"
  const IMSI := "imsi"
  const RESOURCE_PATH := "resource_path"
}
