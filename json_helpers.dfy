/** The camera SDK's error and property lookups used by the REST layer: the error
    code to HTTP status mapping, the error and property names with their hexadecimal
    fallbacks, the text of a property value, and the body of an SDK error reply. */
module JsonHelpers {
  import opened Wrappers
  import opened Numerals

  type u32 = x: int | 0 <= x < 0x1_0000_0000
  type u64 = x: int | 0 <= x < 0x1_0000_0000_0000_0000

  /** `sdkError & 0xFF00`: the error's category byte, kept in place. */
  function Category(e: u32): (c: nat)
    ensures c % 0x100 == 0 && c <= 0xFF00
    ensures c / 0x100 == e / 0x100 % 0x100
  {
    e / 0x100 % 0x100 * 0x100
  }

  /** The HTTP status reported for an SDK error. */
  function MapSdkErrorToHttp(e: u32): (status: int)
    ensures status in {200, 400, 403, 409, 500, 503, 504}
    ensures status == 200 <==> Category(e) == 0
    ensures status == 400 <==> Category(e) == 0x8400
    ensures status == 503 <==> Category(e) == 0x8300
    ensures status == 504 <==> e == 0x8201
    ensures status == 403 <==> e == 0x8204 || e == 0x8207
    ensures status == 409 <==> e == 0x8205 || e == 0x8702
  {
    var category := Category(e);
    if category == 0x0000 then 200
    else if category == 0x8200 then
      if e == 0x8201 then 504
      else if e == 0x8204 || e == 0x8207 then 403
      else if e == 0x8205 then 409
      else 500
    else if category == 0x8400 then 400
    else if category == 0x8300 then 503
    else if category == 0x8700 then
      if e == 0x8702 then 409 else 500
    else 500
  }

  /** Every other error (the generic, file and device categories, and any unknown one)
      is a server error. */
  lemma ServerErrorOtherwise(e: u32)
    requires Category(e) !in {0, 0x8300, 0x8400}
    requires e !in {0x8201, 0x8204, 0x8205, 0x8207, 0x8702}
    ensures MapSdkErrorToHttp(e) == 500
  {
  }

  /** The SDK's named error codes. */
  const SdkErrorNames: map<u32, string> := map[
    0x0000 := "CrError_None",
    0x8000 := "CrError_Generic",
    0x8001 := "CrError_Generic_InvalidHandle",
    0x8002 := "CrError_Generic_InvalidParameter",
    0x8003 := "CrError_Generic_NotSupported",
    0x8004 := "CrError_Generic_MemoryError",
    0x8005 := "CrError_Generic_Unknown",
    0x8006 := "CrError_Generic_Abort",
    0x8100 := "CrError_File",
    0x8101 := "CrError_File_EOF",
    0x8102 := "CrError_File_OutOfRange",
    0x8103 := "CrError_File_NotFound",
    0x8104 := "CrError_File_StorageFull",
    0x8105 := "CrError_File_PermissionDenied",
    0x8200 := "CrError_Connect",
    0x8201 := "CrError_Connect_TimeOut",
    0x8202 := "CrError_Connect_Disconnected",
    0x8204 := "CrError_Connect_FailRejected",
    0x8205 := "CrError_Connect_FailBusy",
    0x8206 := "CrError_Connect_NoDevice",
    0x8207 := "CrError_Connect_SessionAlreadyOpened",
    0x8208 := "CrError_Connect_InvalidHandle",
    0x8209 := "CrError_Connect_Reconnecting",
    0x8300 := "CrError_Memory",
    0x8301 := "CrError_Memory_OutOfMemory",
    0x8302 := "CrError_Memory_Insufficient",
    0x8400 := "CrError_Api",
    0x8401 := "CrError_Api_Insufficient",
    0x8402 := "CrError_Api_InvalidCalled",
    0x8700 := "CrError_Adaptor",
    0x8701 := "CrError_Adaptor_InvalidProperty",
    0x8702 := "CrError_Adaptor_DeviceBusy",
    0x8800 := "CrError_Device",
    0x8801 := "CrError_Device_CameraStatusError"
  ]

  const ErrorFallbackPrefix := "CrError_0x"

  /** The name of an SDK error: its table name, or the prefix and the code in upper-case
      hexadecimal without leading zeros. */
  function SdkErrorName(e: u32): (name: string)
    ensures e in SdkErrorNames ==> name == SdkErrorNames[e]
    ensures e !in SdkErrorNames ==>
              |name| > |ErrorFallbackPrefix| && name[..|ErrorFallbackPrefix|] == ErrorFallbackPrefix
              && AllHexDigits(name[|ErrorFallbackPrefix|..]) && HexValue(name[|ErrorFallbackPrefix|..]) == e
              && name[|ErrorFallbackPrefix|] != '0'
  {
    if e in SdkErrorNames then SdkErrorNames[e]
    else
      var name := ErrorFallbackPrefix + Hex(e);
      assert name[|ErrorFallbackPrefix|..] == Hex(e);
      name
  }

  /** No table name has the fallback's '0' after "CrError_". */
  lemma ErrorTableNamesNotFallback(e: u32)
    requires e in SdkErrorNames
    ensures |SdkErrorNames[e]| <= 8 || SdkErrorNames[e][8] != '0'
  {
  }

  /** A fallback name identifies its code, and no table name is also a fallback name. */
  lemma SdkErrorFallbackInjective(a: u32, b: u32)
    requires a !in SdkErrorNames
    requires SdkErrorName(a) == SdkErrorName(b)
    ensures a == b
  {
    var prefix := ErrorFallbackPrefix;
    assert SdkErrorName(a)[8] == prefix[8] == '0';
    if b in SdkErrorNames {
      ErrorTableNamesNotFallback(b);
    }
  }

  /** The camera properties with names. */
  const PropertyNames: map<u32, string> := map[
    0x0100 := "FNumber",
    0x0101 := "ExposureBiasCompensation",
    0x0102 := "FlashCompensation",
    0x0103 := "ShutterSpeed",
    0x0104 := "IsoSensitivity",
    0x0105 := "ExposureProgramMode",
    0x0106 := "FileType",
    0x0107 := "JpegQuality",
    0x0108 := "WhiteBalance",
    0x0109 := "FocusMode",
    0x010A := "MeteringMode",
    0x010B := "FlashMode",
    0x010D := "DriveMode",
    0x0110 := "FocusArea",
    0x0115 := "Colortemp",
    0x0119 := "StillImageQuality",
    0x012B := "NearFar",
    0x0131 := "DateTime_Settings",
    0x0138 := "AFTrackingSensitivity",
    0x013C := "AF_Area_Position",
    0x0144 := "Zoom_Scale",
    0x0145 := "Zoom_Setting",
    0x0146 := "Zoom_Operation",
    0x0201 := "MediaSLOT1_Status",
    0x0202 := "MediaSLOT2_Status",
    0x0206 := "MediaSLOT1_RemainingTime",
    0x0207 := "MediaSLOT2_RemainingTime",
    0x0301 := "Movie_File_Format",
    0x0302 := "Movie_Recording_Setting",
    0x0500 := "BatteryRemain",
    0x0501 := "BatteryLevel",
    0x0510 := "LiveView_Status",
    0x0520 := "FocusIndication",
    0x0532 := "RecordingState"
  ]

  const PropertyFallbackPrefix := "Property_0x"

  /** The name of a camera property: its table name, or the prefix and the code in
      upper-case hexadecimal without leading zeros. */
  function PropertyName(code: u32): (name: string)
    ensures code in PropertyNames ==> name == PropertyNames[code]
    ensures code !in PropertyNames ==>
              |name| > |PropertyFallbackPrefix| && name[..|PropertyFallbackPrefix|] == PropertyFallbackPrefix
              && AllHexDigits(name[|PropertyFallbackPrefix|..]) && HexValue(name[|PropertyFallbackPrefix|..]) == code
              && (name[|PropertyFallbackPrefix|] != '0' || code == 0)
  {
    if code in PropertyNames then PropertyNames[code]
    else
      var name := PropertyFallbackPrefix + Hex(code);
      assert name[|PropertyFallbackPrefix|..] == Hex(code);
      name
  }

  /** No table name has the fallback's '0' after "Property_". */
  lemma PropertyTableNamesNotFallback(code: u32)
    requires code in PropertyNames
    ensures |PropertyNames[code]| <= 9 || PropertyNames[code][9] != '0'
  {
  }

  /** A fallback name identifies its code, and no table name is also a fallback name. */
  lemma PropertyFallbackInjective(a: u32, b: u32)
    requires a !in PropertyNames
    requires PropertyName(a) == PropertyName(b)
    ensures a == b
  {
    var prefix := PropertyFallbackPrefix;
    assert PropertyName(a)[9] == prefix[9] == '0';
    if b in PropertyNames {
      PropertyTableNamesNotFallback(b);
    }
  }

  const FNumberCode: u32 := 0x0100
  const ShutterSpeedCode: u32 := 0x0103
  const IsoCode: u32 := 0x0104

  /** The shutter-speed value's numerator (bits 16 to 31) and denominator (bits 0 to 15). */
  function ShutterNumerator(value: u64): (num: nat)
    ensures num < 0x10000
  {
    value / 0x10000 % 0x10000
  }

  function ShutterDenominator(value: u64): (den: nat)
    ensures den < 0x10000 && (value - den) % 0x10000 == 0
  {
    value % 0x10000
  }

  /** The numerator and the denominator are the two 16-bit halves of the value's low 32 bits,
      so together they hold all of those bits and nothing above them. */
  lemma ShutterFields(value: u64)
    ensures value % 0x1_0000_0000 == ShutterNumerator(value) * 0x10000 + ShutterDenominator(value)
  {
    var v: nat := value as nat;
    var q, d := v / 0x10000, v % 0x10000;
    var h, n := q / 0x10000, q % 0x10000;
    assert v == h * 0x1_0000_0000 + (n * 0x10000 + d) by {
      assert v == q * 0x10000 + d;
      assert q == h * 0x10000 + n;
    }
    assert 0 <= n * 0x10000 + d < 0x1_0000_0000;
  }

  /** The f-number, a hundredth-scaled value, with one decimal after an 'F'. */
  function FNumberText(value: u64): (text: string)
    ensures |text| > 1 && text[0] == 'F'
    ensures ScanReal(text[1..]) == Some((Round(value as real / 100.0, 1), |text| - 1))
  {
    var fnum := value as real / 100.0;
    var f := Fixed(fnum, 1);
    ScanFixedWhole(fnum, 1);
    var text := "F" + f;
    assert text[1..] == f;
    text
  }

  /** Whole seconds when the denominator is 1, otherwise one over the denominator; the
      numerator is not shown in that case. */
  function ShutterText(value: u64): (text: string)
    ensures |text| > 1 && text[|text| - 1] == 's'
    ensures ShutterDenominator(value) == 1 ==>
              AllDigits(text[..|text| - 1]) && DigitsValue(text[..|text| - 1]) == ShutterNumerator(value)
    ensures ShutterDenominator(value) != 1 ==>
              |text| > 3 && text[..2] == "1/"
              && AllDigits(text[2..|text| - 1]) && DigitsValue(text[2..|text| - 1]) == ShutterDenominator(value)
  {
    var num, den := ShutterNumerator(value), ShutterDenominator(value);
    if den == 1 then
      var text := NatToDecimal(num) + "s";
      assert text[..|text| - 1] == NatToDecimal(num);
      text
    else
      var text := "1/" + NatToDecimal(den) + "s";
      assert text[2..|text| - 1] == NatToDecimal(den);
      text
  }

  /** "ISO " and the value in decimal. */
  function IsoText(value: u64): (text: string)
    ensures |text| > 4 && text[..4] == "ISO "
    ensures AllDigits(text[4..]) && DigitsValue(text[4..]) == value
  {
    var text := "ISO " + NatToDecimal(value);
    assert text[4..] == NatToDecimal(value);
    text
  }

  /** The display text of a property value: the f-number, shutter-speed and ISO
      properties have their own forms, every other property shows the value in decimal. */
  function FormatPropertyValue(code: u32, value: u64): (text: string)
    ensures code == FNumberCode ==> text == FNumberText(value)
    ensures code == ShutterSpeedCode ==> text == ShutterText(value)
    ensures code == IsoCode ==> text == IsoText(value)
    ensures code !in {FNumberCode, ShutterSpeedCode, IsoCode} ==>
              text != [] && AllDigits(text) && DigitsValue(text) == value
  {
    if code == FNumberCode then FNumberText(value)
    else if code == ShutterSpeedCode then ShutterText(value)
    else if code == IsoCode then IsoText(value)
    else NatToDecimal(value)
  }

  /** The `error` object of the reply for a failed SDK call. */
  datatype ErrorBody = ErrorBody(code: u32, httpStatus: int, message: string, sdkError: string)

  /** The error reply for an SDK error, with an optional context: the message is the
      error's name, prefixed by the context and ": " when there is one. */
  function JsonError(e: u32, context: string): (body: ErrorBody)
    ensures body.code == e && body.sdkError == SdkErrorName(e)
    ensures body.httpStatus == MapSdkErrorToHttp(e)
    ensures |body.message| >= |body.sdkError|
            && body.message[|body.message| - |body.sdkError|..] == body.sdkError
    ensures body.message == body.sdkError <==> context == []
    ensures context != [] ==> |body.message| == |context| + 2 + |body.sdkError|
                              && body.message[..|context| + 2] == context + ": "
  {
    var name := SdkErrorName(e);
    var message := if context == [] then name else context + ": " + name;
    assert message[|message| - |name|..] == name;
    assert context != [] ==> |message| > |name| && message[..|context| + 2] == context + ": ";
    ErrorBody(e, MapSdkErrorToHttp(e), message, name)
  }
}
