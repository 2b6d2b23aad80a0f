/** The create-store form: a fixed starting draft with three stock counters,
    the map marker kept in step with the `loc` text, and a POST of every
    draft field. There is no validation and no loading flag; messages are
    browser alerts. React's effect and the asynchronous callbacks are
    explicit steps, as in the edit form. */
module AddStore {
  import opened Options
  import opened JsText
  import opened Objects
  import opened Coords
  import opened FormPayload
  import opened Interaction

  const CreatedMessage := "Toko berhasil ditambahkan!"
  const CreateFailedMessage := "Gagal menambahkan toko"

  const InitialKeys := ["name", "address", "num", "loc", "stock_30ml", "stock_roll_on", "stock_20ml", "image"]

  const InitialValues := map["name" := Str(""), "address" := Str(""), "num" := Str(""), "loc" := Str("(-6.2, 106.816666)"),
                             "stock_30ml" := Num(0), "stock_roll_on" := Num(0), "stock_20ml" := Num(0), "image" := Null]

  /** The draft the form starts with. */
  function InitialDraft(): Obj {
    InitialDraftValid();
    Object(InitialKeys, InitialValues)
  }

  lemma InitialDraftValid()
    ensures Object(InitialKeys, InitialValues).Valid()
  {
    assert Distinct(InitialKeys);
    assert forall k :: k in InitialValues <==> k in InitialKeys;
  }

  /** The starting draft has these keys, in this order. */
  lemma InitialDraftKeys()
    ensures InitialDraft().keys == ["name", "address", "num", "loc", "stock_30ml", "stock_roll_on", "stock_20ml", "image"]
  {
  }

  /** The three text fields of the starting draft are empty. */
  lemma InitialDraftText()
    ensures Get(InitialDraft(), "name") == Get(InitialDraft(), "address") == Get(InitialDraft(), "num") == Some(Str(""))
  {
  }

  /** The starting `loc` is the text of the fallback point, so it shows the
      marker before any effect has run. */
  lemma InitialDraftLoc()
    ensures Get(InitialDraft(), "loc") == Some(Str(Format(Fallback)))
  {
    assert Format(Fallback) == "(-6.2, 106.816666)";
  }

  /** The three stock counters of the starting draft are the number 0, and
      `image` is null. */
  lemma InitialDraftCounters()
    ensures Get(InitialDraft(), "stock_30ml") == Get(InitialDraft(), "stock_roll_on") == Get(InitialDraft(), "stock_20ml") == Some(Num(0))
    ensures Get(InitialDraft(), "image") == Some(Null)
  {
  }

  /** The value `handleChange` stores: for the input named `image`,
      `files[0]`, which is `undefined` when no file was picked; for any other
      input its `value`, as text, with no numeric conversion. */
  function ChangedValue(e: ChangeEvent): (v: Value)
    ensures e.name == "image" && e.firstFile.Some? ==> v == File(e.firstFile.value)
    ensures e.name == "image" && e.firstFile.None? ==> v == Undefined
    ensures e.name != "image" ==> v == Str(e.value)
  {
    if e.name == "image" then
      if e.firstFile.Some? then File(e.firstFile.value) else Undefined
    else Str(e.value)
  }

  /** A field changed to typed text is sent as that very text, even a stock
      counter that started as a number. */
  lemma ChangedFieldSentAsTyped(o: Obj, k: string, v: string)
    ensures (k, Text(v)) in CreateBody(Set(o, k, Str(v)))
  {
    CreateBodyMembers(Set(o, k, Str(v)), k, Text(v));
  }

  /** Sent untouched, the starting draft carries the stock counters as the
      text "0" and the missing image as the text "null". */
  lemma InitialDraftSent()
    ensures ("stock_30ml", Text("0")) in CreateBody(InitialDraft())
    ensures ("stock_roll_on", Text("0")) in CreateBody(InitialDraft())
    ensures ("stock_20ml", Text("0")) in CreateBody(InitialDraft())
    ensures ("image", Text("null")) in CreateBody(InitialDraft())
  {
    assert IntText(0) == "0";
    CreateBodyMembers(InitialDraft(), "stock_30ml", Text("0"));
    CreateBodyMembers(InitialDraft(), "stock_roll_on", Text("0"));
    CreateBodyMembers(InitialDraft(), "stock_20ml", Text("0"));
    CreateBodyMembers(InitialDraft(), "image", Text("null"));
  }

  class AddStoreForm {
    var formData: Object
    var mapCenter: LatLng
    var markerPosition: LatLng
    /** `markerPosition` was set and the effect that follows it has not run. */
    var markerEffectPending: bool
    /** The alerts shown so far, oldest first. */
    var alerts: seq<string>
    /** The route the form has navigated to, if any. */
    var navigation: Option<string>
    var requests: seq<Request>

    /** The draft is a well-formed object. */
    ghost predicate Valid()
      reads this
    {
      formData.Valid()
    }

    /** The draft's `loc` text is the formatted marker. */
    predicate LocShowsMarker()
      reads this
    {
      Get(formData, "loc") == Some(Str(Format(markerPosition)))
    }

    /** The form after its first render, the marker effect included: that
        effect writes the text the starting draft already holds, so the draft
        is the starting one and `loc` shows the marker from the start. */
    constructor ()
      ensures Valid()
      ensures formData == InitialDraft()
      ensures mapCenter == markerPosition == Fallback && LocShowsMarker() && !markerEffectPending
      ensures alerts == [] && navigation == None && requests == []
    {
      InitialDraftLoc();
      SetSame(InitialDraft(), "loc", Str(Format(Fallback)));
      formData := Set(InitialDraft(), "loc", Str(Format(Fallback)));
      mapCenter := Fallback;
      markerPosition := Fallback;
      markerEffectPending := false;
      alerts := [];
      navigation := None;
      requests := [];
    }

    /** The effect on `[markerPosition]`: `loc` becomes the formatted marker;
        no other draft field changes. */
    method MarkerEffect()
      requires Valid()
      modifies this`formData, this`markerEffectPending
      ensures Valid()
      ensures formData == Set(old(formData), "loc", Str(Format(markerPosition)))
      ensures LocShowsMarker() && !markerEffectPending
    {
      formData := Set(formData, "loc", Str(Format(markerPosition)));
      markerEffectPending := false;
    }

    /** Runs the marker effect if one is due. */
    method Settle()
      requires Valid()
      modifies this`formData, this`markerEffectPending
      ensures Valid()
      ensures !markerEffectPending
      ensures old(markerEffectPending) ==> formData == Set(old(formData), "loc", Str(Format(markerPosition)))
      ensures old(markerEffectPending) ==> LocShowsMarker()
      ensures !old(markerEffectPending) ==> formData == old(formData)
    {
      if markerEffectPending {
        MarkerEffect();
      }
    }

    /** `setPosition` from a map click: only the marker moves. */
    method PlaceMarker(p: LatLng)
      modifies this`markerPosition, this`markerEffectPending
      ensures markerPosition == p && markerEffectPending
    {
      markerPosition := p;
      markerEffectPending := true;
    }

    /** A click at `p` and the effect it triggers: the marker is at `p`, the
        draft's `loc` is `Format(p)`, nothing else changes. */
    method ClickMap(p: LatLng)
      requires Valid()
      modifies this`markerPosition, this`markerEffectPending, this`formData
      ensures Valid()
      ensures markerPosition == p && !markerEffectPending && LocShowsMarker()
      ensures formData == Set(old(formData), "loc", Str(Format(p)))
    {
      PlaceMarker(p);
      MarkerEffect();
    }

    /** `handleChange`: the one field named by the input takes the value
        `ChangedValue` gives; every other field keeps its value and place. */
    method HandleChange(e: ChangeEvent)
      requires Valid()
      modifies this`formData
      ensures Valid()
      ensures Get(formData, e.name) == Some(ChangedValue(e))
      ensures forall k :: k != e.name ==> Get(formData, k) == Get(old(formData), k)
      ensures formData.keys == if e.name in old(formData).keys then old(formData).keys else old(formData).keys + [e.name]
    {
      if e.name == "image" {
        var file := if e.firstFile.Some? then File(e.firstFile.value) else Undefined;
        formData := Set(formData, "image", file);
      } else {
        formData := Set(formData, e.name, Str(e.value));
      }
    }

    /** `getCurrentLocation`'s callbacks. `pressed` is the marker of the
        render in which the button was pressed: the callbacks close over it.
        A fix moves centre and marker to the fix, but the `loc` it writes is
        built from `pressed`; the marker effect is then due. An error or a
        missing API only adds its alert. */
    method ApplyLocation(result: GeoResult, pressed: LatLng)
      requires Valid()
      modifies this`formData, this`mapCenter, this`markerPosition, this`markerEffectPending, this`alerts
      ensures Valid()
      ensures result.Fix? ==> mapCenter == markerPosition == result.position && markerEffectPending
      ensures result.Fix? ==> formData == Set(old(formData), "loc", Str(Format(pressed)))
      ensures result.Fix? ==> alerts == old(alerts)
      ensures !result.Fix? ==>
                formData == old(formData) && mapCenter == old(mapCenter)
                && markerPosition == old(markerPosition) && markerEffectPending == old(markerEffectPending)
      ensures result.GeoError? ==> alerts == old(alerts) + [NoFixMessage]
      ensures result.Unsupported? ==> alerts == old(alerts) + [NoGeolocationMessage]
    {
      match result
      case Fix(p) =>
        mapCenter := p;
        markerPosition := p;
        markerEffectPending := true;
        formData := Set(formData, "loc", Str(Format(pressed)));
      case GeoError =>
        alerts := alerts + [NoFixMessage];
      case Unsupported =>
        alerts := alerts + [NoGeolocationMessage];
    }

    /** "Use current location" as the user sees it, with nothing in between:
        the button is pressed, the callback runs, then the marker effect. The
        stale text is overwritten, so after a fix `loc` is the formatted fix,
        as if it had been written directly. */
    method Locate(result: GeoResult)
      requires Valid()
      modifies this`formData, this`mapCenter, this`markerPosition, this`markerEffectPending, this`alerts
      ensures Valid()
      ensures result.Fix? ==> mapCenter == markerPosition == result.position && LocShowsMarker()
      ensures result.Fix? ==> formData == Set(old(formData), "loc", Str(Format(result.position)))
      ensures !result.Fix? && !old(markerEffectPending) ==>
                formData == old(formData) && markerPosition == old(markerPosition)
      ensures !markerEffectPending
    {
      var pressed := markerPosition;
      ApplyLocation(result, pressed);
      Settle();
      if result.Fix? {
        SetOverwrite(old(formData), "loc", Str(Format(pressed)), Str(Format(result.position)));
      }
    }

    /** The button is pressed, the map is clicked at `p` while the position
        is being found, and then the callback and its effect run. The
        callback writes the text of the marker from before the click, yet
        the effect overwrites it: `loc` always ends up showing the marker,
        which is the fix if there is one and `p` otherwise. */
    method LocateAcrossClick(p: LatLng, result: GeoResult)
      requires Valid() && !markerEffectPending
      modifies this`formData, this`mapCenter, this`markerPosition, this`markerEffectPending, this`alerts
      ensures Valid() && LocShowsMarker() && !markerEffectPending
      ensures result.Fix? ==>
                markerPosition == result.position
                && formData == Set(old(formData), "loc", Str(Format(result.position)))
      ensures !result.Fix? ==>
                markerPosition == p && formData == Set(old(formData), "loc", Str(Format(p)))
    {
      var pressed := markerPosition;
      ClickMap(p);
      ghost var clicked := formData;
      ApplyLocation(result, pressed);
      Settle();
      if result.Fix? {
        SetOverwrite(clicked, "loc", Str(Format(pressed)), Str(Format(result.position)));
        SetOverwrite(old(formData), "loc", Str(Format(p)), Str(Format(result.position)));
      }
    }

    /** The `Object.keys(formData).forEach(... uploadData.append ...)` loop:
        every key in order, an unset image included. */
    method BuildPayload() returns (body: seq<Field>)
      requires Valid()
      ensures body == CreateBody(formData)
    {
      var draft: Obj := formData;
      body := [];
      var i := 0;
      while i < |draft.keys|
        invariant 0 <= i <= |draft.keys|
        invariant body == Fields(draft, draft.keys[..i])
      {
        var key := draft.keys[i];
        assert draft.keys[..i + 1] == draft.keys[..i] + [key];
        FieldsSnoc(draft, draft.keys[..i], key);
        body := body + [(key, PartOf(draft.vals[key]))];
        i := i + 1;
      }
      assert draft.keys[..i] == draft.keys;
    }

    /** `handleSubmit` up to the request: no check of any kind, the whole
        draft goes out as a POST to the store collection. */
    method BeginSubmit()
      requires Valid()
      modifies this`requests
      ensures requests == old(requests) + [Request(POST, StoreList, CreateBody(formData))]
    {
      var body := BuildPayload();
      requests := requests + [Request(POST, StoreList, body)];
    }

    /** `handleSubmit` after the POST has ended. Success alerts and moves to
        the store list; a rejection or an exception alerts its message. */
    method FinishSubmit(response: Response)
      modifies this`alerts, this`navigation
      ensures response.Accepted? ==>
                alerts == old(alerts) + [CreatedMessage] && navigation == Some(StoresRoute)
      ensures !response.Accepted? ==>
                alerts == old(alerts) + [FailureNotice(response, CreateFailedMessage).message]
                && navigation == old(navigation)
    {
      if response.Accepted? {
        alerts := alerts + [CreatedMessage];
        navigation := Some(StoresRoute);
      } else {
        alerts := alerts + [FailureNotice(response, CreateFailedMessage).message];
      }
    }

    /** A whole submit attempt: exactly one request, carrying the draft as it
        was; the draft survives whatever the outcome, and the form moves on
        only when the store was created. */
    method Submit(response: Response)
      requires Valid()
      modifies this`requests, this`alerts, this`navigation
      ensures requests == old(requests) + [Request(POST, StoreList, CreateBody(formData))]
      ensures formData == old(formData)
      ensures |alerts| == |old(alerts)| + 1
      ensures navigation != old(navigation) ==> response.Accepted?
    {
      BeginSubmit();
      FinishSubmit(response);
    }
  }
}
