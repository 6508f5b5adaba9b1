/**
 * The device matcher (src/udev_utils.rs): does a device, or a live event,
 * belong to the configured keyboard?
 */
module UdevUtils {
  import opened Wrappers
  import opened Text
  import opened Paths
  import opened Udev
  import opened Configuration

  /**
   * A `PRODUCT` value ("vendor/product/revision"), trimmed and split on '/',
   * has at least two fields and field `field` equals `wanted` ignoring ASCII case.
   */
  predicate ProductFieldsHit(val: string, wanted: string, field: nat)
    requires field < 2
  {
    var parts := Split(Trim(val), '/');
    |parts| >= 2 && EqIgnoreAsciiCase(parts[field], wanted)
  }

  /** Property (name, val) on its own sets the vendor flag. */
  predicate VendorHit(name: string, val: string, c: DeviceConfig) {
    ((name == "ID_VENDOR_ID" || name == "ID_VENDOR") && EqIgnoreAsciiCase(Trim(val), c.vendorId))
    || (name == "PRODUCT" && ProductFieldsHit(val, c.vendorId, 0))
  }

  /** Property (name, val) on its own sets the product flag. */
  predicate ProductHit(name: string, val: string, c: DeviceConfig) {
    ((name == "ID_MODEL_ID" || name == "ID_MODEL") && EqIgnoreAsciiCase(Trim(val), c.productId))
    || (name == "PRODUCT" && ProductFieldsHit(val, c.productId, 1))
  }

  /**
   * `check_property`: folds one property into the two flags. A flag is only
   * ever raised, never cleared, and names other than the five it knows change
   * nothing.
   */
  method CheckProperty(name: string, val: string, vendorMatch: bool, productMatch: bool, c: DeviceConfig)
    returns (vendorMatch': bool, productMatch': bool)
    ensures vendorMatch' == (vendorMatch || VendorHit(name, val, c))
    ensures productMatch' == (productMatch || ProductHit(name, val, c))
  {
    vendorMatch', productMatch' := vendorMatch, productMatch;
    if name == "ID_VENDOR_ID" || name == "ID_VENDOR" {
      if EqIgnoreAsciiCase(Trim(val), c.vendorId) {
        vendorMatch' := true;
      }
    } else if name == "ID_MODEL_ID" || name == "ID_MODEL" {
      if EqIgnoreAsciiCase(Trim(val), c.productId) {
        productMatch' := true;
      }
    } else if name == "PRODUCT" {
      var parts := Split(Trim(val), '/');
      if |parts| >= 2 {
        if EqIgnoreAsciiCase(parts[0], c.vendorId) {
          vendorMatch' := true;
        }
        if EqIgnoreAsciiCase(parts[1], c.productId) {
          productMatch' := true;
        }
      }
    }
  }

  /** A readable property that raises the vendor flag. */
  predicate SetsVendor(p: Property, c: DeviceConfig) {
    p.name.Some? && p.value.Some? && VendorHit(p.name.value, p.value.value, c)
  }

  /** A readable property that raises the product flag. */
  predicate SetsProduct(p: Property, c: DeviceConfig) {
    p.name.Some? && p.value.Some? && ProductHit(p.name.value, p.value.value, c)
  }

  /**
   * The keyboard's identity, read off a property list: some property names
   * the vendor and some (possibly other) property names the product.
   */
  ghost predicate PropertiesMatch(props: seq<Property>, c: DeviceConfig) {
    (exists i | 0 <= i < |props| :: SetsVendor(props[i], c))
    && (exists j | 0 <= j < |props| :: SetsProduct(props[j], c))
  }

  /** The flags after folding `CheckProperty` over `props` from the start, as the loops do. */
  ghost function ScanFlags(props: seq<Property>, c: DeviceConfig): (bool, bool)
    decreases |props|
  {
    if props == [] then (false, false)
    else
      var flags := ScanFlags(props[..|props| - 1], c);
      var p := props[|props| - 1];
      (flags.0 || SetsVendor(p, c), flags.1 || SetsProduct(p, c))
  }

  /** Folding the flags over the list finds exactly the properties that set them. */
  lemma {:induction false} ScanFlagsFindsHits(props: seq<Property>, c: DeviceConfig)
    ensures ScanFlags(props, c).0 <==> exists i | 0 <= i < |props| :: SetsVendor(props[i], c)
    ensures ScanFlags(props, c).1 <==> exists j | 0 <= j < |props| :: SetsProduct(props[j], c)
    decreases |props|
  {
    if props != [] {
      var n := |props|;
      var init := props[..n - 1];
      ScanFlagsFindsHits(init, c);
      assert forall i | 0 <= i < n - 1 :: init[i] == props[i];
    }
  }

  /**
   * The property loop both entry points share: each readable property goes
   * through `CheckProperty`, unreadable ones are skipped. A flag ends set
   * exactly when some property sets it.
   */
  method ScanProperties(props: seq<Property>, c: DeviceConfig) returns (vendorMatch: bool, productMatch: bool)
    ensures vendorMatch <==> exists i | 0 <= i < |props| :: SetsVendor(props[i], c)
    ensures productMatch <==> exists j | 0 <= j < |props| :: SetsProduct(props[j], c)
  {
    vendorMatch, productMatch := false, false;
    for k := 0 to |props|
      invariant (vendorMatch, productMatch) == ScanFlags(props[..k], c)
    {
      var p := props[k];
      if p.name.Some? && p.value.Some? {
        vendorMatch, productMatch := CheckProperty(p.name.value, p.value.value, vendorMatch, productMatch, c);
      }
      assert props[..k + 1][..k] == props[..k];
    }
    assert props[..|props|] == props;
    ScanFlagsFindsHits(props, c);
  }

  /** `is_device_duo_keyboard`: both flags are set after scanning every property. */
  method IsDeviceDuoKeyboard(device: Device, c: DeviceConfig) returns (b: bool)
    ensures b <==> PropertiesMatch(device.properties, c)
  {
    var vendorMatch, productMatch := ScanProperties(device.properties, c);
    b := vendorMatch && productMatch;
  }

  /**
   * The removal correlation of `is_it_duo_keyboard`: the two paths are the
   * same, or one lies below the other (a USB interface and its device).
   */
  predicate Correlated(known: string, eventPath: string) {
    SamePath(known, eventPath) || StartsWith(known, eventPath) || StartsWith(eventPath, known)
  }

  /**
   * What `is_it_duo_keyboard` answers for an event, given the path remembered
   * from the last matched Add.
   */
  ghost function MatchEvent(e: Event, known: Option<string>, c: DeviceConfig): Option<string> {
    if known.Some? && e.kind == Remove && Correlated(known.value, e.devpath) then known
    else if PropertiesMatch(e.properties, c) then Some(e.devpath)
    else None
  }

  /**
   * `is_it_duo_keyboard`: a Remove correlated with the remembered path is the
   * keyboard whatever its properties say; otherwise the event's own path is
   * returned exactly when its properties identify the keyboard. Any returned
   * path is the remembered one or the event's own.
   */
  method IsItDuoKeyboard(e: Event, known: Option<string>, c: DeviceConfig) returns (r: Option<string>)
    ensures r == MatchEvent(e, known, c)
    ensures r.Some? ==> r == known || r.value == e.devpath
  {
    if known.Some? && e.kind == Remove {
      if SamePath(known.value, e.devpath) || StartsWith(known.value, e.devpath) || StartsWith(e.devpath, known.value) {
        return known;
      }
    }
    var vendorMatch, productMatch := ScanProperties(e.properties, c);
    if vendorMatch && productMatch {
      r := Some(e.devpath);
    } else {
      r := None;
    }
  }

  /** The path test's equality case is covered by its prefix cases. */
  lemma CorrelatedIsPrefixEitherWay(known: string, eventPath: string)
    ensures Correlated(known, eventPath) <==> StartsWith(known, eventPath) || StartsWith(eventPath, known)
  {
  }

  /** A `PRODUCT` value without '/' (fewer than two fields) raises neither flag. */
  lemma ProductWithoutSlashSetsNothing(val: string, c: DeviceConfig)
    requires '/' !in Trim(val)
    ensures !VendorHit("PRODUCT", val, c) && !ProductHit("PRODUCT", val, c)
  {
    SplitHasTwoFieldsIff(Trim(val), '/');
  }

  /**
   * The match does not depend on the order of the properties: any
   * rearrangement of the list gives the same answer.
   */
  lemma PropertyOrderIrrelevant(props: seq<Property>, other: seq<Property>, c: DeviceConfig)
    requires multiset(props) == multiset(other)
    ensures PropertiesMatch(props, c) <==> PropertiesMatch(other, c)
  {
    forall q: seq<Property>, q': seq<Property> | multiset(q) == multiset(q') && PropertiesMatch(q, c)
      ensures PropertiesMatch(q', c)
    {
      var i :| 0 <= i < |q| && SetsVendor(q[i], c);
      var j :| 0 <= j < |q| && SetsProduct(q[j], c);
      assert q[i] in multiset(q');
      assert q[j] in multiset(q');
      var i' :| 0 <= i' < |q'| && q'[i'] == q[i];
      var j' :| 0 <= j' < |q'| && q'[j'] == q[j];
    }
  }

  /** The identity the installer writes: vendor "0b05", product "1bf2". */
  const InstalledIds := DeviceConfig("0b05", "1bf2")

  /** Upper-case ids in the exact vendor and model properties match. */
  lemma MatchesOnIdProperties()
    ensures PropertiesMatch([Property(Some("ID_VENDOR_ID"), Some("0B05")), Property(Some("ID_MODEL_ID"), Some("1BF2"))], InstalledIds)
  {
    var props := [Property(Some("ID_VENDOR_ID"), Some("0B05")), Property(Some("ID_MODEL_ID"), Some("1BF2"))];
    TrimUnpadded("0B05");
    TrimUnpadded("1BF2");
    assert SetsVendor(props[0], InstalledIds);
    assert SetsProduct(props[1], InstalledIds);
  }

  /** The composite `PRODUCT` property alone raises both flags. */
  lemma MatchesOnProductProperty()
    ensures PropertiesMatch([Property(Some("PRODUCT"), Some("0b05/1bf2/100"))], InstalledIds)
  {
    var props := [Property(Some("PRODUCT"), Some("0b05/1bf2/100"))];
    TrimUnpadded("0b05/1bf2/100");
    assert Join(["0b05", "1bf2", "100"], '/') == "0b05/1bf2/100";
    SplitJoin(["0b05", "1bf2", "100"], '/');
    assert SetsVendor(props[0], InstalledIds);
    assert SetsProduct(props[0], InstalledIds);
  }

  /** A vendor id without any product property is not the keyboard. */
  lemma VendorAloneDoesNotMatch()
    ensures !PropertiesMatch([Property(Some("ID_VENDOR_ID"), Some("0b05"))], InstalledIds)
  {
    var props := [Property(Some("ID_VENDOR_ID"), Some("0b05"))];
    assert !SetsProduct(props[0], InstalledIds);
  }

  /**
   * With a device path remembered, the removal of anything below it (such as
   * "/devices/usb1/1-1/1-1:1.0" below "/devices/usb1/1-1") is the keyboard's,
   * even when the event carries no properties.
   */
  lemma ChildRemovalIsCorrelated(known: string, child: string, c: DeviceConfig)
    requires known != [] && '/' !in child
    ensures MatchEvent(Event(Remove, known + "/" + child, []), Some(known), c) == Some(known)
  {
    ChildStartsWithParent(known, child);
  }

  /**
   * With a device path remembered, the removal of a sibling is not correlated,
   * because paths compare by component: "/devices/usb1/1-10" is not below
   * "/devices/usb1/1-1" although the one string extends the other.
   */
  lemma SiblingRemovalIsNotCorrelated(parent: seq<string>, name: string, sibling: string, c: DeviceConfig)
    requires forall i | 0 <= i < |parent| :: IsPlainName(parent[i])
    requires IsPlainName(name) && IsPlainName(sibling) && name != sibling
    ensures MatchEvent(Event(Remove, AbsolutePath(parent + [sibling]), []), Some(AbsolutePath(parent + [name])), c) == None
  {
    var known, other := parent + [name], parent + [sibling];
    assert known[|parent|] != other[|parent|];
    AbsoluteStartsWithIff(known, other);
    AbsoluteStartsWithIff(other, known);
  }
}
