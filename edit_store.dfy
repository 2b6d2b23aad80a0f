/** The edit-store form: loads one stored record into a draft, keeps the map
    marker and the `loc` text together, validates the draft and sends it as
    an update. React's asynchronous boundaries (the fetch, the geolocation
    callback, the submit request) and its effects are explicit steps. */
module EditStore {
  import opened Options
  import opened JsText
  import opened Objects
  import opened Coords
  import opened FormPayload
  import opened Interaction

  const NameRequired := "Nama toko wajib diisi"
  const AddressRequired := "Alamat wajib diisi"
  const NumRequired := "Nomor telepon wajib diisi"
  const NumInvalid := "Nomor telepon tidak valid (10-13 digit)"
  const CheckFormMessage := "Mohon periksa kembali form anda"
  const UpdatedMessage := "Toko berhasil diupdate! Anda akan dialihkan..."
  const UpdateFailedMessage := "Gagal mengupdate toko"
  const FetchFailedMessage := "Gagal mengambil data toko"

  /** `m[k]`, with `None` for a field that has no error entry. */
  function Lookup(m: map<string, string>, k: string): Option<string> {
    if k in m then Some(m[k]) else None
  }

  /** The rule for `name`: required, so blank text is an error. */
  function NameError(name: string): Option<string> {
    if IsBlank(name) then Some(NameRequired) else None
  }

  /** The rule for `address`: required, so blank text is an error. */
  function AddressError(address: string): Option<string> {
    if IsBlank(address) then Some(AddressRequired) else None
  }

  /** The rule for `num`: required, and otherwise 10 to 13 digits as typed,
      without trimming. */
  function NumError(num: string): Option<string> {
    if IsBlank(num) then Some(NumRequired)
    else if !IsPhoneNumber(num) then Some(NumInvalid)
    else None
  }

  /** The error object assembled from the three rules: a field has an entry
      exactly when its rule fails, holding that rule's message, and no other
      key appears. */
  function Collect(n: Option<string>, a: Option<string>, m: Option<string>): (errs: map<string, string>)
    ensures errs.Keys <= {"name", "address", "num"}
    ensures Lookup(errs, "name") == n && Lookup(errs, "address") == a && Lookup(errs, "num") == m
  {
    var errs := if n.Some? then map["name" := n.value] else map[];
    var errs := if a.Some? then errs["address" := a.value] else errs;
    if m.Some? then errs["num" := m.value] else errs
  }

  /** The error object the three rules give for a draft's text fields. */
  function FormErrors(name: string, address: string, num: string): map<string, string> {
    Collect(NameError(name), AddressError(address), NumError(num))
  }

  /** A field that passes its rule leaves no entry, so the error object is
      empty exactly when all three rules pass. */
  lemma CollectEmpty(n: Option<string>, a: Option<string>, m: Option<string>)
    ensures Collect(n, a, m) == map[] <==> n.None? && a.None? && m.None?
  {
    var errs := Collect(n, a, m);
    if n.None? && a.None? && m.None? {
      assert "name" !in errs && "address" !in errs && "num" !in errs;
    } else if n.Some? {
      assert "name" in errs;
    } else if a.Some? {
      assert "address" in errs;
    } else {
      assert "num" in errs;
    }
  }

  /** The form can be sent exactly when name and address are not blank and
      the phone number, as typed, is 10 to 13 digits. */
  lemma FormErrorsEmptyIff(name: string, address: string, num: string)
    ensures FormErrors(name, address, num) == map[]
      <==> !IsBlank(name) && !IsBlank(address) && IsPhoneNumber(num)
  {
    CollectEmpty(NameError(name), AddressError(address), NumError(num));
    assert NameError(name).None? <==> !IsBlank(name);
    assert AddressError(address).None? <==> !IsBlank(address);
    assert NumError(num).None? <==> !IsBlank(num) && IsPhoneNumber(num);
    assert IsPhoneNumber(num) ==> !IsBlank(num) by {
      if IsPhoneNumber(num) {
        assert !IsSpace(num[0]);
      }
    }
  }

  /** Filled name and address with a phone number that is not 10 to 13
      digits (too short, too long, or holding other characters): the number
      is the only field in error. */
  lemma OnlyNumberInvalid(name: string, address: string, num: string)
    requires !IsBlank(name) && !IsBlank(address) && !IsBlank(num) && !IsPhoneNumber(num)
    ensures FormErrors(name, address, num) == map["num" := NumInvalid]
  {
    var errs := FormErrors(name, address, num);
    assert "name" !in errs && "address" !in errs;
    assert errs.Keys == {"num"};
  }

  /** The phone rule looks at the text as typed: a number with white space
      in front is invalid even though it is not blank. */
  lemma PaddedNumberIsInvalid(name: string, address: string, num: string)
    requires |num| > 0 && IsSpace(num[0]) && !IsBlank(num)
    ensures Lookup(FormErrors(name, address, num), "num") == Some(NumInvalid)
  {
    assert !IsDigit(num[0]);
    assert NumError(num) == Some(NumInvalid);
  }

  /** The successive checks of `validateForm` on three strings: blank after
      `trim()` for name and address; blank after `trim()`, else a failed
      `/^[0-9]{10,13}$/.test`, for num. Each failing check adds its message,
      and the result is the error object of the three rules. */
  method CheckFields(name: string, address: string, num: string) returns (errors: map<string, string>)
    ensures errors == FormErrors(name, address, num)
  {
    errors := map[];
    var nameEmpty := TrimsToEmpty(name);
    if nameEmpty {
      errors := errors["name" := NameRequired];
    }
    assert errors == Collect(NameError(name), None, None);
    var addressEmpty := TrimsToEmpty(address);
    if addressEmpty {
      errors := errors["address" := AddressRequired];
    }
    assert errors == Collect(NameError(name), AddressError(address), None);
    ghost var before := errors;
    var numEmpty := TrimsToEmpty(num);
    PhonePatternMeaning(num);
    if numEmpty {
      errors := errors["num" := NumRequired];
    } else if !PhonePatternTest(num) {
      errors := errors["num" := NumInvalid];
    }
    assert errors == if NumError(num).Some? then before["num" := NumError(num).value] else before;
  }

  /** `!s.trim()`: the trimmed text is empty exactly when `s` is blank. */
  method TrimsToEmpty(s: string) returns (empty: bool)
    ensures empty <==> IsBlank(s)
  {
    TrimResult(s);
    empty := Trim(s) == "";
  }

  /** The field `k` of the draft, when it holds a string. */
  function TextOf(o: Object, k: string): Option<string> {
    if k in o.vals && o.vals[k].Str? then Some(o.vals[k].s) else None
  }

  /** `validateForm` reaches its verdict only when name, address and num are
      all strings; `.trim()` on anything else throws. */
  predicate Checkable(o: Object) {
    TextOf(o, "name").Some? && TextOf(o, "address").Some? && TextOf(o, "num").Some?
  }

  function DraftErrors(o: Object): map<string, string>
    requires Checkable(o)
  {
    FormErrors(TextOf(o, "name").value, TextOf(o, "address").value, TextOf(o, "num").value)
  }

  /** `loc` is parsed only when it is a string; `loc?.match` skips null and
      undefined, and throws on any other value. */
  predicate LocThrows(record: Object) {
    "loc" in record.vals && !(record.vals["loc"].Str? || record.vals["loc"].Null? || record.vals["loc"].Undefined?)
  }

  /** The point the stored `loc` text holds, if it holds one. */
  function StoredPoint(record: Object): Option<LatLng> {
    if TextOf(record, "loc").Some? then Parse(TextOf(record, "loc").value) else None
  }

  /** `const { id, products, ...storeData } = data.data`. */
  function StoreData(record: Obj): (d: Obj)
    ensures Get(d, "id") == None && Get(d, "products") == None
    ensures forall k :: k != "id" && k != "products" ==> Get(d, k) == Get(record, k)
  {
    Delete(Delete(record, "id"), "products")
  }

  /** The draft the form starts with: the three text fields and `loc`
      empty, `image` null, in that key order. */
  function BlankDraft(): (d: Obj)
    ensures d.keys == ["name", "address", "num", "loc", "image"]
    ensures Get(d, "name") == Get(d, "address") == Get(d, "num") == Get(d, "loc") == Some(Str(""))
    ensures Get(d, "image") == Some(Null)
  {
    BlankDraftValid();
    Object(BlankKeys, BlankValues)
  }

  const BlankKeys := ["name", "address", "num", "loc", "image"]

  const BlankValues := map["name" := Str(""), "address" := Str(""), "num" := Str(""), "loc" := Str(""), "image" := Null]

  lemma BlankDraftValid()
    ensures Object(BlankKeys, BlankValues).Valid()
  {
    assert Distinct(BlankKeys);
    assert forall k :: k in BlankValues <==> k in BlankKeys;
  }

  class EditStoreForm {
    const storeId: string
    var formData: Object
    var formErrors: map<string, string>
    var mapCenter: LatLng
    var markerPosition: LatLng
    /** `markerPosition` was set and the effect that follows it has not run. */
    var markerEffectPending: bool
    var isLoading: bool
    var initialLoading: bool
    var store: Option<Object>
    var modal: Option<Notice>
    /** The route a scheduled navigation goes to. */
    var navigation: Option<string>
    var requests: seq<Request>

    /** The draft is a well-formed object. */
    ghost predicate Valid()
      reads this
    {
      formData.Valid()
    }

    /** The draft's `loc` text is the formatted marker. */
    predicate LocShowsMarker()
      reads this
    {
      Get(formData, "loc") == Some(Str(Format(markerPosition)))
    }

    /** The form after its first render: the empty draft, the fallback point,
        the GET of the store under way, and the marker effect run once. */
    constructor (storeId: string)
      ensures Valid()
      ensures this.storeId == storeId
      ensures formData.keys == ["name", "address", "num", "loc", "image"]
      ensures Get(formData, "name") == Get(formData, "address") == Get(formData, "num") == Some(Str(""))
      ensures Get(formData, "image") == Some(Null)
      ensures mapCenter == markerPosition == Fallback && LocShowsMarker() && !markerEffectPending
      ensures formErrors == map[] && !isLoading && initialLoading
      ensures store == None && modal == None && navigation == None
      ensures requests == [Request(GET, StoreDetail(storeId), [])]
    {
      this.storeId := storeId;
      formData := Set(BlankDraft(), "loc", Str(Format(Fallback)));
      formErrors := map[];
      mapCenter := Fallback;
      markerPosition := Fallback;
      markerEffectPending := false;
      isLoading := false;
      initialLoading := true;
      store := None;
      modal := None;
      navigation := None;
      requests := [Request(GET, StoreDetail(storeId), [])];
    }

    /** The effect on `[markerPosition]`: `loc` becomes the formatted marker,
        in place when the draft has it; no other draft field changes. */
    method MarkerEffect()
      requires Valid()
      modifies this`formData, this`markerEffectPending
      ensures Valid()
      ensures formData == Set(old(formData), "loc", Str(Format(markerPosition)))
      ensures LocShowsMarker() && !markerEffectPending
    {
      formData := Set(formData, "loc", Str(Format(markerPosition)));
      markerEffectPending := false;
    }

    /** Runs the marker effect if one is due. */
    method Settle()
      requires Valid()
      modifies this`formData, this`markerEffectPending
      ensures Valid()
      ensures !markerEffectPending
      ensures old(markerEffectPending) ==> formData == Set(old(formData), "loc", Str(Format(markerPosition)))
      ensures old(markerEffectPending) ==> LocShowsMarker()
      ensures !old(markerEffectPending) ==> formData == old(formData)
    {
      if markerEffectPending {
        MarkerEffect();
      }
    }

    /** `setPosition` from a map click: only the marker moves. */
    method PlaceMarker(p: LatLng)
      modifies this`markerPosition, this`markerEffectPending
      ensures markerPosition == p && markerEffectPending
    {
      markerPosition := p;
      markerEffectPending := true;
    }

    /** A click at `p` and the effect it triggers: the marker is at `p`, the
        draft's `loc` is `Format(p)`, nothing else changes. */
    method ClickMap(p: LatLng)
      requires Valid()
      modifies this`markerPosition, this`markerEffectPending, this`formData
      ensures Valid()
      ensures markerPosition == p && !markerEffectPending
      ensures formData == Set(old(formData), "loc", Str(Format(p)))
    {
      PlaceMarker(p);
      MarkerEffect();
    }

    /** The body of `fetchStore` after the GET has ended. On a record, the
        draft becomes the record minus `id` and `products`; when its `loc`
        text holds a point, map centre and marker move there (and the marker
        effect is due); otherwise they stay. A failed fetch, or a `loc` that
        is neither text nor nullish, shows the error modal and keeps the
        draft. Loading ends either way. */
    method Hydrate(outcome: FetchOutcome)
      requires Valid()
      modifies this`formData, this`mapCenter, this`markerPosition, this`markerEffectPending
      modifies this`store, this`modal, this`initialLoading
      ensures Valid()
      ensures !initialLoading
      ensures store == if outcome.Fetched? then Some(outcome.record) else old(store)
      ensures outcome.FetchFailed? || LocThrows(outcome.record) ==>
                formData == old(formData) && mapCenter == old(mapCenter)
                && markerPosition == old(markerPosition)
                && markerEffectPending == old(markerEffectPending)
                && modal == Some(Notice(Failure, FetchFailedMessage))
      ensures outcome.Fetched? && !LocThrows(outcome.record) ==>
                formData == StoreData(outcome.record) && modal == old(modal)
      ensures outcome.Fetched? && !LocThrows(outcome.record) && StoredPoint(outcome.record).Some? ==>
                mapCenter == markerPosition == StoredPoint(outcome.record).value && markerEffectPending
      ensures outcome.Fetched? && !LocThrows(outcome.record) && StoredPoint(outcome.record).None? ==>
                mapCenter == old(mapCenter) && markerPosition == old(markerPosition)
                && markerEffectPending == old(markerEffectPending)
    {
      match outcome {
        case FetchFailed =>
          modal := Some(Notice(Failure, FetchFailedMessage));
        case Fetched(record) =>
          store := Some(record);
          if LocThrows(record) {
            modal := Some(Notice(Failure, FetchFailedMessage));
          } else {
            Adopt(record);
          }
      }
      initialLoading := false;
    }

    /** The record's part of `fetchStore`: the draft becomes the record
        minus `id` and `products`, and when the record's `loc` text holds a
        point, map centre and marker move there (and the marker effect is
        due). The two state updates are applied in one render, so their
        order does not matter. */
    method Adopt(record: Obj)
      modifies this`formData, this`mapCenter, this`markerPosition, this`markerEffectPending
      ensures Valid() && formData == StoreData(record)
      ensures StoredPoint(record).Some? ==>
                mapCenter == markerPosition == StoredPoint(record).value && markerEffectPending
      ensures StoredPoint(record).None? ==>
                mapCenter == old(mapCenter) && markerPosition == old(markerPosition)
                && markerEffectPending == old(markerEffectPending)
    {
      formData := StoreData(record);
      FollowPoint(StoredPoint(record));
    }

    /** `setMapCenter` and `setMarkerPosition` with a parsed point, when
        there is one; without one, nothing moves. */
    method FollowPoint(point: Option<LatLng>)
      modifies this`mapCenter, this`markerPosition, this`markerEffectPending
      ensures point.Some? ==> mapCenter == markerPosition == point.value && markerEffectPending
      ensures point.None? ==>
                mapCenter == old(mapCenter) && markerPosition == old(markerPosition)
                && markerEffectPending == old(markerEffectPending)
    {
      if point.Some? {
        mapCenter := point.value;
        markerPosition := point.value;
        markerEffectPending := true;
      }
    }

    /** Loading as the user sees it: hydration, then the marker effect. A
        stored point is written back into `loc` in the canonical format; a
        `loc` text without a point is kept as stored, with the marker left
        at the fallback, so text and marker then disagree. */
    method Load(outcome: FetchOutcome)
      requires Valid() && !markerEffectPending
      modifies this`formData, this`mapCenter, this`markerPosition, this`markerEffectPending
      modifies this`store, this`modal, this`initialLoading
      ensures Valid()
      ensures !initialLoading && !markerEffectPending
      ensures outcome.Fetched? && !LocThrows(outcome.record) && StoredPoint(outcome.record).Some? ==>
                formData == Set(StoreData(outcome.record), "loc", Str(Format(StoredPoint(outcome.record).value)))
                && mapCenter == markerPosition == StoredPoint(outcome.record).value
                && LocShowsMarker()
      ensures outcome.Fetched? && !LocThrows(outcome.record) && StoredPoint(outcome.record).None? ==>
                formData == StoreData(outcome.record)
                && mapCenter == old(mapCenter) && markerPosition == old(markerPosition)
      ensures outcome.FetchFailed? || LocThrows(outcome.record) ==>
                formData == old(formData) && markerPosition == old(markerPosition)
    {
      Hydrate(outcome);
      Settle();
    }

    /** `handleChange`. A file input stores `files[0]` as `image` when a file
        was picked and otherwise leaves the draft alone; any other input
        stores its value, as text, under its name. Either way the error
        shown for that name is cleared, and nothing else changes. */
    method HandleChange(e: ChangeEvent)
      requires Valid()
      modifies this`formData, this`formErrors
      ensures Valid()
      ensures !e.isFile ==> Get(formData, e.name) == Some(Str(e.value))
      ensures !e.isFile ==> forall k :: k != e.name ==> Get(formData, k) == Get(old(formData), k)
      ensures !e.isFile ==>
                formData.keys == if e.name in old(formData).keys then old(formData).keys else old(formData).keys + [e.name]
      ensures e.isFile && e.firstFile.Some? ==> Get(formData, "image") == Some(File(e.firstFile.value))
      ensures e.isFile && e.firstFile.Some? ==> forall k :: k != "image" ==> Get(formData, k) == Get(old(formData), k)
      ensures e.isFile && e.firstFile.Some? ==>
                formData.keys == if "image" in old(formData).keys then old(formData).keys else old(formData).keys + ["image"]
      ensures e.isFile && e.firstFile.None? ==> formData == old(formData)
      ensures e.name in formErrors && formErrors[e.name] == ""
      ensures forall k :: k != e.name ==> (k in formErrors <==> k in old(formErrors))
      ensures forall k :: k != e.name && k in formErrors ==> formErrors[k] == old(formErrors)[k]
    {
      if e.isFile {
        if e.firstFile.Some? {
          formData := Set(formData, "image", File(e.firstFile.value));
        }
      } else {
        formData := Set(formData, e.name, Str(e.value));
      }
      formErrors := formErrors[e.name := ""];
    }

    /** `getCurrentLocation`'s callbacks. A fix moves centre and marker to it
        and writes its formatted text into `loc` (the marker effect is then
        due and writes the same text). An error or a missing API only shows
        its modal. */
    method ApplyLocation(result: GeoResult)
      requires Valid()
      modifies this`formData, this`mapCenter, this`markerPosition, this`markerEffectPending, this`modal
      ensures Valid()
      ensures result.Fix? ==> mapCenter == markerPosition == result.position && markerEffectPending
      ensures result.Fix? ==> formData == Set(old(formData), "loc", Str(Format(result.position)))
      ensures result.Fix? ==> modal == old(modal)
      ensures !result.Fix? ==>
                formData == old(formData) && mapCenter == old(mapCenter)
                && markerPosition == old(markerPosition) && markerEffectPending == old(markerEffectPending)
      ensures result.GeoError? ==> modal == Some(Notice(Failure, NoFixMessage))
      ensures result.Unsupported? ==> modal == Some(Notice(Failure, NoGeolocationMessage))
    {
      match result
      case Fix(p) =>
        mapCenter := p;
        markerPosition := p;
        markerEffectPending := true;
        formData := Set(formData, "loc", Str(Format(p)));
      case GeoError =>
        modal := Some(Notice(Failure, NoFixMessage));
      case Unsupported =>
        modal := Some(Notice(Failure, NoGeolocationMessage));
    }

    /** "Use current location" as the user sees it: the callback, then the
        marker effect. After a fix, `loc` is the formatted fix. */
    method Locate(result: GeoResult)
      requires Valid()
      modifies this`formData, this`mapCenter, this`markerPosition, this`markerEffectPending, this`modal
      ensures Valid()
      ensures result.Fix? ==> mapCenter == markerPosition == result.position && LocShowsMarker()
      ensures result.Fix? ==> formData == Set(old(formData), "loc", Str(Format(result.position)))
      ensures !result.Fix? && !old(markerEffectPending) ==>
                formData == old(formData) && markerPosition == old(markerPosition)
      ensures !markerEffectPending
    {
      ApplyLocation(result);
      Settle();
      if result.Fix? {
        SetOverwrite(old(formData), "loc", Str(Format(result.position)), Str(Format(result.position)));
      }
    }

    /** `validateForm`. When name, address and num are strings, the error map
        is replaced by the freshly built one and the verdict says whether it
        is empty; otherwise `.trim()` throws and nothing changes. */
    method Validate() returns (verdict: Option<bool>)
      requires Valid()
      modifies this`formErrors
      ensures verdict.Some? <==> Checkable(formData)
      ensures Checkable(formData) ==> formErrors == DraftErrors(formData)
      ensures Checkable(formData) ==> verdict == Some(formErrors == map[])
      ensures !Checkable(formData) ==> formErrors == old(formErrors)
    {
      var name := TextOf(formData, "name");
      var address := TextOf(formData, "address");
      var num := TextOf(formData, "num");
      if name.Some? && address.Some? && num.Some? {
        var errors := CheckFields(name.value, address.value, num.value);
        formErrors := errors;
        verdict := Some(|errors| == 0);
      } else {
        verdict := None;
      }
    }

    /** The `Object.keys(formData).forEach(... uploadData.append ...)` loop:
        every key in order, except an `image` whose value is falsy. */
    method BuildPayload() returns (body: seq<Field>)
      requires Valid()
      ensures body == UpdateBody(formData)
    {
      var draft: Obj := formData;
      body := [];
      var i := 0;
      while i < |draft.keys|
        invariant 0 <= i <= |draft.keys|
        invariant body == Fields(draft, SentKeys(draft, draft.keys[..i]))
      {
        var key := draft.keys[i];
        var value := draft.vals[key];
        UpdateFieldsStep(draft, i);
        if !(key == "image" && Falsy(value)) {
          body := body + [(key, PartOf(value))];
        }
        i := i + 1;
      }
      assert draft.keys[..i] == draft.keys;
    }

    /** `handleSubmit` up to the request. When validation fails, the error
        modal shows and no request is sent; when it passes, loading starts
        and the update body goes out as a PUT. The draft is never touched. */
    method BeginSubmit() returns (sent: bool)
      requires Valid()
      modifies this`formErrors, this`modal, this`isLoading, this`requests
      ensures sent <==> Checkable(formData) && DraftErrors(formData) == map[]
      ensures Checkable(formData) ==> formErrors == DraftErrors(formData)
      ensures !Checkable(formData) ==>
                formErrors == old(formErrors) && modal == old(modal)
      ensures Checkable(formData) && !sent ==> modal == Some(Notice(Failure, CheckFormMessage))
      ensures !sent ==> isLoading == old(isLoading) && requests == old(requests)
      ensures sent ==> isLoading && modal == old(modal)
      ensures sent ==> requests == old(requests) + [Request(PUT, StoreDetail(storeId), UpdateBody(formData))]
    {
      var verdict := Validate();
      assert formData == old(formData) && modal == old(modal);
      if verdict != Some(true) {
        if verdict.Some? {
          assert Checkable(formData);
          modal := Some(Notice(Failure, CheckFormMessage));
        }
        return false;
      }
      assert Checkable(formData);
      isLoading := true;
      var body := BuildPayload();
      assert body == UpdateBody(old(formData));
      requests := requests + [Request(PUT, StoreDetail(storeId), body)];
      sent := true;
    }

    /** `handleSubmit` after the PUT has ended. Success shows the modal and
        schedules the move to the store list; failure shows the error. The
        draft stays as it was, and loading ends either way. */
    method FinishSubmit(response: Response)
      modifies this`modal, this`isLoading, this`navigation
      ensures !isLoading
      ensures response.Accepted? ==>
                modal == Some(Notice(Success, UpdatedMessage)) && navigation == Some(StoresRoute)
      ensures !response.Accepted? ==>
                modal == Some(FailureNotice(response, UpdateFailedMessage)) && navigation == old(navigation)
    {
      if response.Accepted? {
        modal := Some(Notice(Success, UpdatedMessage));
        navigation := Some(StoresRoute);
      } else {
        modal := Some(FailureNotice(response, UpdateFailedMessage));
      }
      isLoading := false;
    }

    /** A whole submit attempt. The draft survives it unchanged; loading is
        off afterwards; a request goes out only for a valid draft. */
    method Submit(response: Response)
      requires Valid() && !isLoading
      modifies this`formErrors, this`modal, this`isLoading, this`requests, this`navigation
      ensures !isLoading
      ensures |requests| == |old(requests)| + (if Checkable(formData) && DraftErrors(formData) == map[] then 1 else 0)
      ensures navigation != old(navigation) ==> response.Accepted?
    {
      var sent := BeginSubmit();
      if sent {
        FinishSubmit(response);
      }
    }
  }
}
