// The VNPAY gateway adapter (VNPAY merchant API 2.1.0): configuration guard,
// payment-URL request fields, and the reading of the gateway's callback query.
module Vnpay {
  import opened Common
  import opened Entities

  const DefaultVersion := "2.1.0"
  const DefaultOrderType := "other"
  const MinAmount := 5000
  const MaxAmount := 1000000000
  const ExpiryMinutes := 15

  /** A query-string or request parameter list: key/value pairs in order. */
  type Fields = seq<(string, string)>

  datatype BankCode = ANY | VNPAYQR | VNBANK | INTCARD | NCB
  datatype Currency = VND | USD
  datatype DisplayLanguage = Vietnamese | English

  function BankCodeName(b: BankCode): string
  {
    match b
    case ANY => "ANY"
    case VNPAYQR => "VNPAYQR"
    case VNBANK => "VNBANK"
    case INTCARD => "INTCARD"
    case NCB => "NCB"
  }

  /** `Currency.ToString().ToUpper()`. */
  function CurrencyCode(c: Currency): string
  {
    match c
    case VND => "VND"
    case USD => "USD"
  }

  /** The locale code carried in each language's `Description` attribute. */
  function LocaleCode(l: DisplayLanguage): string
  {
    match l
    case Vietnamese => "vn"
    case English => "en"
  }

  /** `PaymentRequest`; the amount is in whole dong. */
  datatype PaymentRequest = PaymentRequest(
    paymentId: int,
    description: Option<string>,
    money: int,
    ipAddress: Option<string>,
    bankCode: BankCode,
    createdDate: Instant,
    currency: Currency,
    language: DisplayLanguage)

  /**
   * What `PaymentHelper.GetPaymentUrl(baseUrl, hashSecret)` renders into the
   * payment URL: the gateway address, the signing secret and the request fields.
   */
  datatype PaymentUrl = PaymentUrl(baseUrl: string, hashSecret: string, fields: Fields)

  /** `PaymentResult`. */
  datatype PaymentResult = PaymentResult(
    paymentId: int,
    isSuccess: bool,
    description: string,
    payDate: string,
    vnpayTransactionId: int,
    paymentMethod: string,
    responseCode: int,
    transactionStatus: int,
    bankCode: string,
    bankTransactionId: string)

  /** The value stored under `key`, or null (`GetValueOrDefault`). */
  function Lookup(d: Fields, key: string): Option<string>
  {
    if d == [] then None
    else if d[0].0 == key then Some(d[0].1)
    else Lookup(d[1..], key)
  }

  /** A key has a value exactly when some field carries it, and the value found is stored under it. */
  lemma {:induction false} LookupFinds(d: Fields, key: string)
    ensures Lookup(d, key).Some? <==> exists i :: 0 <= i < |d| && d[i].0 == key
    ensures Lookup(d, key).Some? ==> (key, Lookup(d, key).value) in d
    decreases |d|
  {
    if d != [] && d[0].0 != key {
      LookupFinds(d[1..], key);
      if exists i :: 0 <= i < |d| && d[i].0 == key {
        var i :| 0 <= i < |d| && d[i].0 == key;
        assert d[1..][i - 1] == d[i];
      }
      if exists i :: 0 <= i < |d[1..]| && d[1..][i].0 == key {
        var i :| 0 <= i < |d[1..]| && d[1..][i].0 == key;
        assert d[i + 1] == d[1..][i];
      }
    }
  }

  /** A key the adapter keeps from a callback query. */
  predicate IsGatewayKey(key: string)
  {
    key != "" && StartsWith(key, "vnp_")
  }

  /** The parameters `GetPaymentResult` retains: the non-empty keys starting with "vnp_", in query order. */
  function RetainGatewayFields(q: Fields): (r: Fields)
    ensures forall i :: 0 <= i < |r| ==> IsGatewayKey(r[i].0)
    ensures forall p :: p in r <==> p in q && IsGatewayKey(p.0)
  {
    if q == [] then []
    else if IsGatewayKey(q[0].0) then [q[0]] + RetainGatewayFields(q[1..])
    else RetainGatewayFields(q[1..])
  }

  /** The fields that feed the signature check: every retained field except vnp_SecureHash. */
  function SignatureInput(d: Fields): (r: Fields)
    ensures forall p :: p in r <==> p in d && p.0 != "vnp_SecureHash"
    ensures |r| <= |d|
  {
    if d == [] then []
    else if d[0].0 != "vnp_SecureHash" then [d[0]] + SignatureInput(d[1..])
    else SignatureInput(d[1..])
  }

  lemma {:induction false} SignatureInputAppend(d: Fields, p: (string, string))
    ensures SignatureInput(d + [p]) == SignatureInput(d) + (if p.0 != "vnp_SecureHash" then [p] else [])
    decreases |d|
  {
    if d != [] {
      assert (d + [p])[1..] == d[1..] + [p];
      SignatureInputAppend(d[1..], p);
    }
  }

  /** The text under `key`, with a missing key read as empty. */
  function Value(d: Fields, key: string): string
  {
    match Lookup(d, key)
    case Some(v) => v
    case None => ""
  }

  /**
   * The ten fields the adapter needs are all present and non-empty: TxnRef, ResponseCode,
   * SecureHash, TransactionStatus, OrderInfo, TransactionNo, PayDate, CardType, BankTranNo
   * and BankCode.
   */
  predicate HasRequiredFields(d: Fields)
  {
    && !NullOrEmpty(Lookup(d, "vnp_TxnRef"))
    && !NullOrEmpty(Lookup(d, "vnp_ResponseCode"))
    && !NullOrEmpty(Lookup(d, "vnp_SecureHash"))
    && !NullOrEmpty(Lookup(d, "vnp_TransactionStatus"))
    && !NullOrEmpty(Lookup(d, "vnp_OrderInfo"))
    && !NullOrEmpty(Lookup(d, "vnp_TransactionNo"))
    && !NullOrEmpty(Lookup(d, "vnp_PayDate"))
    && !NullOrEmpty(Lookup(d, "vnp_CardType"))
    && !NullOrEmpty(Lookup(d, "vnp_BankTranNo"))
    && !NullOrEmpty(Lookup(d, "vnp_BankCode"))
  }

  /** `sbyte.Parse`: a decimal integer in -128..127, or a format/overflow exception. */
  function ParseSByte(s: string): (r: Option<int>)
    ensures r.Some? ==> -128 <= r.value <= 127
    ensures |s| > 0 && AllDigits(s) ==> r == (if DigitsValue(s) <= 127 then Some(DigitsValue(s) as int) else None)
  {
    assert |s| > 0 && AllDigits(s) ==> ParseInteger(s) == Some(DigitsValue(s) as int) by {
      if |s| > 0 && AllDigits(s) {
        ParseDigits(s);
      }
    }
    match ParseInteger(s)
    case Some(v) => if -128 <= v <= 127 then Some(v) else None
    case None => None
  }

  const Int64Bound := 0x8000_0000_0000_0000

  /** `long.Parse`: a decimal integer within 64-bit range, or an exception. */
  function ParseLong(s: string): (r: Option<int>)
    ensures r.Some? ==> -Int64Bound <= r.value < Int64Bound
    ensures |s| > 0 && AllDigits(s) ==> r == (if DigitsValue(s) < Int64Bound then Some(DigitsValue(s) as int) else None)
  {
    assert |s| > 0 && AllDigits(s) ==> ParseInteger(s) == Some(DigitsValue(s) as int) by {
      if |s| > 0 && AllDigits(s) {
        ParseDigits(s);
      }
    }
    match ParseInteger(s)
    case Some(v) => if -Int64Bound <= v < Int64Bound then Some(v) else None
    case None => None
  }

  function Digits2(s: string, i: nat): nat
    requires i + 2 <= |s| && AllDigits(s)
  {
    DigitsValue(s[i..i + 2])
  }

  /** A year of the proleptic Gregorian calendar `DateTime` uses is a leap year. */
  predicate IsLeapYear(year: int)
  {
    year % 4 == 0 && (year % 100 != 0 || year % 400 == 0)
  }

  /** The number of days of month `month` (1 to 12) of `year`. */
  function DaysInMonth(year: int, month: int): (days: int)
    ensures 28 <= days <= 31
    ensures days == 29 <==> month == 2 && IsLeapYear(year)
  {
    if month == 2 then (if IsLeapYear(year) then 29 else 28)
    else if month == 4 || month == 6 || month == 9 || month == 11 then 30
    else 31
  }

  /**
   * Text `DateTime.ParseExact(_, "yyyyMMddHHmmss", InvariantCulture)` accepts:
   * fourteen digits naming a year from 1, a month, a day that month has, an hour,
   * a minute and a second.
   */
  predicate IsStampText(s: string)
  {
    |s| == 14 && AllDigits(s)
    && DigitsValue(s[..4]) >= 1
    && 1 <= Digits2(s, 4) <= 12 && 1 <= Digits2(s, 6) <= DaysInMonth(DigitsValue(s[..4]), Digits2(s, 4))
    && Digits2(s, 8) <= 23 && Digits2(s, 10) <= 59 && Digits2(s, 12) <= 59
  }

  /** No stamp names a day past the end of its month: 30 February, 31 April, 29 February of 2023. */
  lemma StampDayInMonth(s: string)
    requires |s| == 14 && AllDigits(s)
    requires Digits2(s, 6) > DaysInMonth(DigitsValue(s[..4]), Digits2(s, 4))
    ensures !IsStampText(s)
  {
  }

  /**
   * The request fields of a payment URL, in the order `GetPaymentUrl` adds them.
   * `render` is the `yyyyMMddHHmmss` formatting of instants.
   */
  function RequestFields(version: string, tmnCode: string, orderType: string, callbackUrl: string,
                         req: PaymentRequest, description: string, ip: string, render: Instant -> string): Fields
  {
    FieldList(version, tmnCode, IntText(req.money * 100), render(req.createdDate), CurrencyCode(req.currency),
              ip, LocaleCode(req.language), if req.bankCode == ANY then "" else BankCodeName(req.bankCode),
              Trim(description), orderType, callbackUrl, IntText(req.paymentId),
              render(req.createdDate + ExpiryMinutes * SecondsPerMinute))
  }

  /** The request fields with their texts already rendered, keyed in the order the adapter adds them. */
  function FieldList(version: string, tmnCode: string, amount: string, createDate: string, currency: string,
                     ip: string, locale: string, bankCode: string, orderInfo: string, orderType: string,
                     returnUrl: string, txnRef: string, expireDate: string): Fields
  {
    [("vnp_Version", version),
     ("vnp_Command", "pay"),
     ("vnp_TmnCode", tmnCode),
     ("vnp_Amount", amount),
     ("vnp_CreateDate", createDate),
     ("vnp_CurrCode", currency),
     ("vnp_IpAddr", ip),
     ("vnp_Locale", locale),
     ("vnp_BankCode", bankCode),
     ("vnp_OrderInfo", orderInfo),
     ("vnp_OrderType", orderType),
     ("vnp_ReturnUrl", returnUrl),
     ("vnp_TxnRef", txnRef),
     ("vnp_ExpireDate", expireDate)]
  }

  /** The value found under the key stored at `i` is the one stored there, when no earlier field has that key. */
  lemma {:induction false} LookupFirst(d: Fields, i: int)
    requires 0 <= i < |d|
    requires forall j :: 0 <= j < i ==> d[j].0 != d[i].0
    ensures Lookup(d, d[i].0) == Some(d[i].1)
    decreases |d|
  {
    if i > 0 {
      assert d[1..][i - 1] == d[i];
      forall j | 0 <= j < i - 1
        ensures d[1..][j].0 != d[1..][i - 1].0
      {
        assert d[1..][j] == d[j + 1];
      }
      LookupFirst(d[1..], i - 1);
    }
  }

  /** The text stored at position `i` of the request fields is the one found under its key. */
  lemma FieldListLookup(version: string, tmnCode: string, amount: string, createDate: string, currency: string,
                        ip: string, locale: string, bankCode: string, orderInfo: string, orderType: string,
                        returnUrl: string, txnRef: string, expireDate: string, i: int)
    requires 0 <= i < 14
    ensures var f := FieldList(version, tmnCode, amount, createDate, currency, ip, locale, bankCode,
                               orderInfo, orderType, returnUrl, txnRef, expireDate);
      Lookup(f, f[i].0) == Some(f[i].1)
  {
    var f := FieldList(version, tmnCode, amount, createDate, currency, ip, locale, bankCode,
                       orderInfo, orderType, returnUrl, txnRef, expireDate);
    LookupFirst(f, i);
  }

  /**
   * The amount the payment URL carries is the request's money in hundredths of a
   * dong, and the transaction reference is the payment id.
   */
  lemma RequestCarriesAmountAndReference(version: string, tmnCode: string, orderType: string, callbackUrl: string,
                                         req: PaymentRequest, description: string, ip: string, render: Instant -> string)
    ensures var f := RequestFields(version, tmnCode, orderType, callbackUrl, req, description, ip, render);
      && Lookup(f, "vnp_Amount") == Some(IntText(req.money * 100))
      && Lookup(f, "vnp_TxnRef") == Some(IntText(req.paymentId))
  {
    var amount, created, bank := IntText(req.money * 100), render(req.createdDate),
      if req.bankCode == ANY then "" else BankCodeName(req.bankCode);
    var expire := render(req.createdDate + ExpiryMinutes * SecondsPerMinute);
    FieldListLookup(version, tmnCode, amount, created, CurrencyCode(req.currency), ip, LocaleCode(req.language),
                    bank, Trim(description), orderType, callbackUrl, IntText(req.paymentId), expire, 3);
    FieldListLookup(version, tmnCode, amount, created, CurrencyCode(req.currency), ip, LocaleCode(req.language),
                    bank, Trim(description), orderType, callbackUrl, IntText(req.paymentId), expire, 12);
  }

  /** The payment URL expires fifteen minutes after the request was created. */
  lemma RequestExpiresAfterFifteenMinutes(version: string, tmnCode: string, orderType: string, callbackUrl: string,
                                          req: PaymentRequest, description: string, ip: string, render: Instant -> string)
    ensures var f := RequestFields(version, tmnCode, orderType, callbackUrl, req, description, ip, render);
      && Lookup(f, "vnp_CreateDate") == Some(render(req.createdDate))
      && Lookup(f, "vnp_ExpireDate") == Some(render(req.createdDate + 15 * 60))
  {
    var amount, created, bank := IntText(req.money * 100), render(req.createdDate),
      if req.bankCode == ANY then "" else BankCodeName(req.bankCode);
    var expire := render(req.createdDate + ExpiryMinutes * SecondsPerMinute);
    FieldListLookup(version, tmnCode, amount, created, CurrencyCode(req.currency), ip, LocaleCode(req.language),
                    bank, Trim(description), orderType, callbackUrl, IntText(req.paymentId), expire, 4);
    FieldListLookup(version, tmnCode, amount, created, CurrencyCode(req.currency), ip, LocaleCode(req.language),
                    bank, Trim(description), orderType, callbackUrl, IntText(req.paymentId), expire, 13);
  }

  /** "Any method" sends an empty bank code, and the order description is sent trimmed. */
  lemma RequestBankCodeAndDescription(version: string, tmnCode: string, orderType: string, callbackUrl: string,
                                      req: PaymentRequest, description: string, ip: string, render: Instant -> string)
    ensures var f := RequestFields(version, tmnCode, orderType, callbackUrl, req, description, ip, render);
      && Lookup(f, "vnp_BankCode") == Some(if req.bankCode == ANY then "" else BankCodeName(req.bankCode))
      && Lookup(f, "vnp_OrderInfo") == Some(Trim(description))
  {
    var amount, created, bank := IntText(req.money * 100), render(req.createdDate),
      if req.bankCode == ANY then "" else BankCodeName(req.bankCode);
    var expire := render(req.createdDate + ExpiryMinutes * SecondsPerMinute);
    FieldListLookup(version, tmnCode, amount, created, CurrencyCode(req.currency), ip, LocaleCode(req.language),
                    bank, Trim(description), orderType, callbackUrl, IntText(req.paymentId), expire, 8);
    FieldListLookup(version, tmnCode, amount, created, CurrencyCode(req.currency), ip, LocaleCode(req.language),
                    bank, Trim(description), orderType, callbackUrl, IntText(req.paymentId), expire, 9);
  }

  /**
   * A `PaymentHelper` as the adapter drives it: the request and response fields
   * handed to it, in call order. Its URL encoding and HMAC are not part of this model.
   */
  class PaymentHelper {
    var requestData: Fields
    var responseData: Fields

    constructor ()
      ensures requestData == [] && responseData == []
    {
      requestData := [];
      responseData := [];
    }

    method AddRequestData(key: string, value: string)
      modifies this
      ensures requestData == old(requestData) + [(key, value)]
      ensures responseData == old(responseData)
    {
      requestData := requestData + [(key, value)];
    }

    /** Seven `AddRequestData` calls in a row, one per field. */
    method AddFields(f: Fields)
      requires |f| == 7
      modifies this
      ensures requestData == old(requestData) + f
      ensures responseData == old(responseData)
    {
      AddRequestData(f[0].0, f[0].1);
      AddRequestData(f[1].0, f[1].1);
      AddRequestData(f[2].0, f[2].1);
      AddRequestData(f[3].0, f[3].1);
      AddRequestData(f[4].0, f[4].1);
      AddRequestData(f[5].0, f[5].1);
      AddRequestData(f[6].0, f[6].1);
      assert f == [f[0], f[1], f[2], f[3], f[4], f[5], f[6]];
    }

    method AddResponseData(key: string, value: string)
      modifies this
      ensures responseData == old(responseData) + [(key, value)]
      ensures requestData == old(requestData)
    {
      responseData := responseData + [(key, value)];
    }
  }

  /** The fourteen `AddRequestData` calls of `GetPaymentUrl`, on a fresh helper. */
  method FillPaymentRequest(version: string, tmnCode: string, orderType: string, callbackUrl: string,
                            req: PaymentRequest, description: string, ip: string, render: Instant -> string)
    returns (helper: PaymentHelper)
    ensures fresh(helper)
    ensures helper.requestData == RequestFields(version, tmnCode, orderType, callbackUrl, req, description, ip, render)
  {
    var f := RequestFields(version, tmnCode, orderType, callbackUrl, req, description, ip, render);
    helper := new PaymentHelper();
    helper.AddFields(f[..7]);
    helper.AddFields(f[7..]);
    assert f[..7] + f[7..] == f;
  }

  /** The response-data loop of `GetPaymentResult`: every field but the secure hash, in order. */
  method CollectResponseData(d: Fields) returns (helper: PaymentHelper)
    ensures fresh(helper)
    ensures helper.responseData == SignatureInput(d)
  {
    helper := new PaymentHelper();
    var i := 0;
    while i < |d|
      invariant 0 <= i <= |d|
      invariant helper.responseData == SignatureInput(d[..i])
    {
      var (key, value) := d[i];
      SignatureInputAppend(d[..i], d[i]);
      assert d[..i + 1] == d[..i] + [d[i]];
      if key != "vnp_SecureHash" {
        helper.AddResponseData(key, value);
      }
      i := i + 1;
    }
    assert d[..i] == d;
  }

  /**
   * What a callback query (already reduced to its `vnp_` fields) reads as, given whether
   * its signature checks out: an exception when a required field is missing or empty,
   * when a code does not parse as `sbyte`, a reference or transaction number as `long`,
   * or the pay date as `yyyyMMddHHmmss`; otherwise the parsed result, successful exactly
   * when both codes are zero and the signature is correct.
   */
  function ReadCallback(d: Fields, signatureOk: bool): (r: Outcome<PaymentResult>)
    ensures r.Returned? <==>
      && HasRequiredFields(d)
      && ParseSByte(Value(d, "vnp_ResponseCode")).Some?
      && ParseSByte(Value(d, "vnp_TransactionStatus")).Some?
      && ParseLong(Value(d, "vnp_TxnRef")).Some?
      && ParseLong(Value(d, "vnp_TransactionNo")).Some?
      && IsStampText(Value(d, "vnp_PayDate"))
    ensures r.Returned? ==>
      && Some(r.value.paymentId) == ParseLong(Value(d, "vnp_TxnRef"))
      && Some(r.value.vnpayTransactionId) == ParseLong(Value(d, "vnp_TransactionNo"))
      && Some(r.value.responseCode) == ParseSByte(Value(d, "vnp_ResponseCode"))
      && Some(r.value.transactionStatus) == ParseSByte(Value(d, "vnp_TransactionStatus"))
      && r.value.description == Value(d, "vnp_OrderInfo") != ""
      && r.value.bankCode == Value(d, "vnp_BankCode") != ""
      && (r.value.isSuccess <==> r.value.transactionStatus == 0 && r.value.responseCode == 0 && signatureOk)
  {
    if !HasRequiredFields(d) then Thrown
    else
      var response := ParseSByte(Value(d, "vnp_ResponseCode"));
      var status := ParseSByte(Value(d, "vnp_TransactionStatus"));
      var paymentId := ParseLong(Value(d, "vnp_TxnRef"));
      var transactionId := ParseLong(Value(d, "vnp_TransactionNo"));
      if response.None? || status.None? || paymentId.None? || transactionId.None?
        || !IsStampText(Value(d, "vnp_PayDate"))
      then Thrown
      else Returned(PaymentResult(
        paymentId.value, status.value == 0 && response.value == 0 && signatureOk,
        Value(d, "vnp_OrderInfo"), Value(d, "vnp_PayDate"), transactionId.value,
        Value(d, "vnp_CardType"), response.value, status.value, Value(d, "vnp_BankCode"), Value(d, "vnp_BankTranNo")))
  }

  /** The `Vnpay` service object with its six settings. */
  class VnpayClient {
    var tmnCode: string
    var hashSecret: string
    var callbackUrl: string
    var baseUrl: string
    var version: string
    var orderType: string

    /** A fresh service: the settings are unset (null, which the guard treats as empty). */
    constructor ()
      ensures tmnCode == "" && hashSecret == "" && callbackUrl == "" && baseUrl == ""
      ensures version == "" && orderType == ""
    {
      tmnCode, hashSecret, callbackUrl, baseUrl := "", "", "", "";
      version, orderType := "", "";
    }

    /** The four settings without which no payment can be made are all non-empty. */
    predicate Configured()
      reads this
    {
      tmnCode != "" && hashSecret != "" && callbackUrl != "" && baseUrl != ""
    }

    /** `EnsureParametersBeforePayment`: throws unless the service is configured. */
    method EnsureParametersBeforePayment() returns (r: Outcome<()>)
      ensures r.Returned? <==> Configured()
    {
      if tmnCode == "" || hashSecret == "" || callbackUrl == "" || baseUrl == "" {
        return Thrown;
      }
      return Returned(());
    }

    /** `Initialize`: stores the six settings, then runs the configuration guard. */
    method Initialize(tmn: string, secret: string, callback: string, base: string,
                      ver: string := DefaultVersion, kind: string := DefaultOrderType)
      returns (r: Outcome<()>)
      modifies this
      ensures tmnCode == tmn && hashSecret == secret && callbackUrl == callback && baseUrl == base
      ensures version == ver && orderType == kind
      ensures r.Returned? <==> tmn != "" && secret != "" && callback != "" && base != ""
    {
      tmnCode, hashSecret, callbackUrl, baseUrl := tmn, secret, callback, base;
      version, orderType := ver, kind;
      r := EnsureParametersBeforePayment();
    }

    /** The request `GetPaymentUrl` accepts: configured service, amount within bounds, description and IP present. */
    predicate AcceptsPayment(req: PaymentRequest)
      reads this
    {
      Configured() && MinAmount <= req.money <= MaxAmount
      && !NullOrEmpty(req.description) && !NullOrEmpty(req.ipAddress)
    }

    /**
     * `GetPaymentUrl`: validates the request, then hands the fourteen request fields
     * to a fresh helper and asks it for the signed URL.
     */
    method GetPaymentUrl(req: PaymentRequest, render: Instant -> string) returns (r: Outcome<PaymentUrl>)
      ensures r.Returned? <==> AcceptsPayment(req)
      ensures r.Returned? ==> r.value == PaymentUrl(baseUrl, hashSecret,
        RequestFields(version, tmnCode, orderType, callbackUrl, req, req.description.value, req.ipAddress.value, render))
    {
      var guard := EnsureParametersBeforePayment();
      if guard.Thrown? {
        return Thrown;
      }
      if req.money < MinAmount || req.money > MaxAmount {
        return Thrown;
      }
      if req.description.None? || req.description.value == "" {
        return Thrown;
      }
      if req.ipAddress.None? || req.ipAddress.value == "" {
        return Thrown;
      }
      var helper := FillPaymentRequest(version, tmnCode, orderType, callbackUrl, req,
                                       req.description.value, req.ipAddress.value, render);
      return Returned(PaymentUrl(baseUrl, hashSecret, helper.requestData));
    }

    /**
     * `GetPaymentResult`: reads the gateway's callback query. `signatureValid` is the
     * helper's HMAC check of the signature input against the secure hash and secret.
     */
    method GetPaymentResult(query: Fields, signatureValid: (Fields, string, string) -> bool)
      returns (r: Outcome<PaymentResult>)
      ensures var d := RetainGatewayFields(query);
        r == ReadCallback(d, signatureValid(SignatureInput(d), Value(d, "vnp_SecureHash"), hashSecret))
    {
      var d := RetainGatewayFields(query);
      if !HasRequiredFields(d) {
        return Thrown;
      }
      var helper := CollectResponseData(d);
      var response := ParseSByte(Value(d, "vnp_ResponseCode"));
      var status := ParseSByte(Value(d, "vnp_TransactionStatus"));
      if response.None? || status.None? {
        return Thrown;
      }
      var paymentId := ParseLong(Value(d, "vnp_TxnRef"));
      var transactionId := ParseLong(Value(d, "vnp_TransactionNo"));
      if paymentId.None? || transactionId.None? || !IsStampText(Value(d, "vnp_PayDate")) {
        return Thrown;
      }
      var success := status.value == 0 && response.value == 0
        && signatureValid(helper.responseData, Value(d, "vnp_SecureHash"), hashSecret);
      return Returned(PaymentResult(
        paymentId.value, success, Value(d, "vnp_OrderInfo"), Value(d, "vnp_PayDate"), transactionId.value,
        Value(d, "vnp_CardType"), response.value, status.value, Value(d, "vnp_BankCode"), Value(d, "vnp_BankTranNo")));
    }
  }

  /**
   * The callback echoes the request's transaction reference: a query carrying the
   * field the payment URL sent reads back the payment id that was sent.
   */
  lemma TxnRefRoundTrip(paymentId: int)
    requires -Int64Bound <= paymentId < Int64Bound
    ensures ParseLong(IntText(paymentId)) == Some(paymentId)
  {
    IntTextRoundTrip(paymentId);
  }
}
