// Persistent configuration (src/config.cpp, include/config.h): defaults,
// validation, loading from the SD card with the NVS copy as fallback, the
// saved document, and reset.
//
// g_config's fixed array of networks is an array of MAX_WIFI_NETWORKS
// slots; the 24 integer camera fields are a map from their JSON key to
// their value. Reading the stored text and JSON (de)serialisation belong to
// the storage layer and ArduinoJson: a load sees each source as "no text",
// "text that does not parse" or a parsed document.

module Config {
  import opened Common
  import opened Json
  import Ov2640

  const MAX_WIFI_NETWORKS: nat := 3
  /** Characters kept of an SSID (char[32]) and of a password (char[64]). */
  const SSID_MAX: nat := 31
  const PASSWORD_MAX: nat := 63
  const ADMIN_HASH_MAX: nat := 64
  const OTA_PASSWORD_MAX: nat := 31

  /** JPEG quality accepted by validation. */
  const QUALITY_MIN: int := 0
  const QUALITY_MAX: int := 63

  // ---------------------------------------------------------------------
  // Camera settings
  // ---------------------------------------------------------------------

  /** The JSON keys of the CameraSettings fields. */
  const CAMERA_KEYS: set<string> := {
    "framesize", "quality", "brightness", "contrast", "saturation", "gainceiling",
    "colorbar", "awb", "agc", "aec", "hmirror", "vflip", "awb_gain", "agc_gain",
    "aec_value", "special_effect", "wb_mode", "ae_level", "dcw", "bpc", "wpc",
    "raw_gma", "lenc", "led_intensity"}

  /** The value setDefaultConfiguration gives each camera field, and load uses for an absent key. */
  function DefaultValue(key: string): int
  {
    if key == "framesize" then Ov2640.FRAMESIZE_HVGA
    else if key == "quality" then 10
    else if key in {"awb", "agc", "aec", "awb_gain", "dcw", "wpc", "raw_gma", "lenc"} then 1
    else 0
  }

  const DEFAULT_CAMERA: map<string, int> := map k | k in CAMERA_KEYS :: DefaultValue(k)

  predicate CameraWellFormed(c: map<string, int>)
  {
    c.Keys == CAMERA_KEYS && forall k :: k in c ==> INT_MIN <= c[k] <= INT_MAX
  }

  /** The camera section as load reads it: each key, or its default. */
  function ParseCamera(cam: Json): (c: map<string, int>)
    ensures c.Keys == CAMERA_KEYS
  {
    map k | k in CAMERA_KEYS :: IntOr(Get(cam, k), DefaultValue(k))
  }

  /** The camera section as save writes it: every field under its own key. */
  function CameraToJson(c: map<string, int>): Json
  {
    JObj(map k | k in c :: JInt(c[k]))
  }

  /** Save writes every camera field under the key load reads it from. */
  lemma CameraRoundTrip(c: map<string, int>)
    requires CameraWellFormed(c)
    ensures ParseCamera(CameraToJson(c)) == c
  {
  }

  /** A key missing from the camera section takes the value setDefaultConfiguration gives it. */
  lemma AbsentCameraKeysDefault(cam: Json, k: string)
    requires k in CAMERA_KEYS && !Has(cam, k)
    ensures ParseCamera(cam)[k] == DEFAULT_CAMERA[k]
  {
  }

  lemma DefaultCameraWellFormed()
    ensures CameraWellFormed(DEFAULT_CAMERA)
    ensures DEFAULT_CAMERA["quality"] == 10 && DEFAULT_CAMERA["framesize"] == Ov2640.FRAMESIZE_HVGA
  {
  }

  // ---------------------------------------------------------------------
  // Validation
  // ---------------------------------------------------------------------

  /**
   * validateConfiguration: a camera section is required, and a quality in
   * it must convert (`int quality = camera["quality"]`) to 0..63.
   */
  predicate Validate(doc: Json)
  {
    Has(doc, "camera") &&
    var cam := Get(doc, "camera");
    (Has(cam, "quality") ==> QUALITY_MIN <= AsInt(Get(cam, "quality")) <= QUALITY_MAX)
  }

  /**
   * A quality given as decimal text is checked by its number, so "100" is
   * rejected and "40" accepted; an accepted one still loads as the default
   * quality, since `| 10` takes only integers.
   */
  lemma QuotedQuality(q: int)
    requires INT_MIN <= q <= INT_MAX
    ensures var doc := JObj(map["camera" := JObj(map["quality" := JStr(IntToString(q))])]);
      (Validate(doc) <==> QUALITY_MIN <= q <= QUALITY_MAX)
      && ParseCamera(Get(doc, "camera"))["quality"] == DefaultValue("quality")
  {
    AsIntReadsText(q);
    var cam := JObj(map["quality" := JStr(IntToString(q))]);
    assert Get(cam, "quality") == JStr(IntToString(q));
  }

  /** A configuration that passes validation always loads a quality in 0..63. */
  lemma ValidatedQualityInRange(doc: Json)
    requires Validate(doc)
    ensures QUALITY_MIN <= ParseCamera(Get(doc, "camera"))["quality"] <= QUALITY_MAX
  {
    var cam := Get(doc, "camera");
    if !Has(cam, "quality") {
      AbsentCameraKeysDefault(cam, "quality");
    }
  }

  // ---------------------------------------------------------------------
  // Networks
  // ---------------------------------------------------------------------

  datatype Network = Network(
    ssid: string,
    password: string,
    priority: int,
    useStaticIp: bool,
    staticIp: seq<byte>,
    gateway: seq<byte>)

  /** A zero-filled slot. */
  const EMPTY_NETWORK: Network := Network("", "", 0, false, [0, 0, 0, 0], [0, 0, 0, 0])

  /** `strncpy(dst, src, n)` into a zeroed buffer: at most n characters. */
  function Truncate(s: string, n: nat): (t: string)
    ensures |t| <= n && |t| <= |s| && t == s[..|t|]
    ensures |s| <= n ==> t == s
  {
    if |s| <= n then s else s[..n]
  }

  /** An element of "networks" that load keeps: one with an ssid and a password string. */
  predicate IsEntry(j: Json)
  {
    StrOrNull(Get(j, "ssid")).Some? && StrOrNull(Get(j, "password")).Some?
  }

  function Bytes4(items: seq<Json>): (b: seq<byte>)
    requires |items| == 4
    ensures |b| == 4
  {
    [ByteOf(items[0]), ByteOf(items[1]), ByteOf(items[2]), ByteOf(items[3])]
  }

  /**
   * One network entry as load stores it over the slot's previous contents:
   * the addresses are replaced only when static addressing is on and the
   * array has exactly four elements (the gateway only alongside static_ip).
   */
  function ParseNetwork(j: Json, prev: Network): Network
    requires IsEntry(j)
  {
    var useStatic := BoolOr(Get(j, "use_static_ip"), false);
    var ip := Items(Get(j, "static_ip"));
    var gw := Items(Get(j, "gateway"));
    var withIp := useStatic && Has(j, "static_ip");
    Network(
      Truncate(Get(j, "ssid").s, SSID_MAX),
      Truncate(Get(j, "password").s, PASSWORD_MAX),
      IntOr(Get(j, "priority"), 0),
      useStatic,
      if withIp && |ip| == 4 then Bytes4(ip) else prev.staticIp,
      if withIp && Has(j, "gateway") && |gw| == 4 then Bytes4(gw) else prev.gateway)
  }

  /** The entries of a "networks" array that load keeps, in order. */
  function Accepted(items: seq<Json>): (acc: seq<Json>)
    ensures |acc| <= |items|
    ensures forall i :: 0 <= i < |acc| ==> IsEntry(acc[i])
  {
    if |items| == 0 then []
    else Accepted(items[..|items| - 1]) + (if IsEntry(items[|items| - 1]) then [items[|items| - 1]] else [])
  }

  lemma AcceptedStep(items: seq<Json>, i: nat)
    requires i < |items|
    ensures Accepted(items[..i + 1]) ==
      Accepted(items[..i]) + (if IsEntry(items[i]) then [items[i]] else [])
  {
    assert items[..i + 1][..i] == items[..i];
  }

  /** What load keeps from a prefix of the array is a prefix of what it keeps from the whole. */
  lemma {:induction false} AcceptedPrefix(items: seq<Json>, i: nat)
    requires i <= |items|
    ensures |Accepted(items[..i])| <= |Accepted(items)|
    ensures Accepted(items[..i]) == Accepted(items)[..|Accepted(items[..i])|]
    decreases |items| - i
  {
    if i == |items| {
      assert items[..i] == items;
    } else {
      AcceptedPrefix(items, i + 1);
      AcceptedStep(items, i);
    }
  }

  /** Entries that all qualify are all kept. */
  lemma {:induction false} AcceptedAll(items: seq<Json>)
    requires forall i :: 0 <= i < |items| ==> IsEntry(items[i])
    ensures Accepted(items) == items
  {
    if |items| > 0 {
      AcceptedAll(items[..|items| - 1]);
    }
  }

  /** The slots after storing the kept entries `acc` over `prev`, first slot first. */
  function Overlay(acc: seq<Json>, prev: seq<Network>): (r: seq<Network>)
    requires |prev| == MAX_WIFI_NETWORKS
    requires forall i :: 0 <= i < |acc| ==> IsEntry(acc[i])
    ensures |r| == MAX_WIFI_NETWORKS
  {
    seq(MAX_WIFI_NETWORKS, k requires 0 <= k < MAX_WIFI_NETWORKS =>
      if k < |acc| then ParseNetwork(acc[k], prev[k]) else prev[k])
  }

  /** The network slots after loading a "networks" array: at most MAX_WIFI_NETWORKS kept entries. */
  function LoadedNetworks(items: seq<Json>, prev: seq<Network>): seq<Network>
    requires |prev| == MAX_WIFI_NETWORKS
  {
    Overlay(Accepted(items), prev)
  }

  function Min(a: nat, b: nat): nat { if a <= b then a else b }

  /** Keeping one more entry fills the next slot and leaves the others. */
  lemma OverlayStep(acc: seq<Json>, x: Json, prev: seq<Network>)
    requires |prev| == MAX_WIFI_NETWORKS && |acc| < MAX_WIFI_NETWORKS
    requires forall i :: 0 <= i < |acc| ==> IsEntry(acc[i])
    requires IsEntry(x)
    ensures Overlay(acc + [x], prev) == Overlay(acc, prev)[|acc| := ParseNetwork(x, prev[|acc|])]
  {
  }

  /** Only the first MAX_WIFI_NETWORKS kept entries matter. */
  lemma OverlayPrefix(a: seq<Json>, b: seq<Json>, prev: seq<Network>)
    requires |prev| == MAX_WIFI_NETWORKS
    requires forall i :: 0 <= i < |b| ==> IsEntry(b[i])
    requires MAX_WIFI_NETWORKS <= |a| <= |b| && a == b[..|a|]
    ensures Overlay(a, prev) == Overlay(b, prev)
  {
  }

  // ---------------------------------------------------------------------
  // System settings and the saved document
  // ---------------------------------------------------------------------

  datatype SystemSettings = SystemSettings(
    adminPasswordHash: string,
    otaEnabled: bool,
    otaPassword: string,
    logLevel: int,
    useHttps: bool,
    serverPort: int)

  const DEFAULT_SYSTEM: SystemSettings := SystemSettings("", false, "", 2, false, 80)

  /**
   * The system section as load reads it. A password key whose value is not
   * a string makes the source copy from NULL, which has no defined result;
   * the model keeps the earlier value in that case.
   */
  function ParseSystem(doc: Json, prev: SystemSettings): SystemSettings
  {
    var hash := StrOrNull(Get(doc, "admin_password_hash"));
    var ota := StrOrNull(Get(doc, "ota_password"));
    SystemSettings(
      if hash.Some? then Truncate(hash.value, ADMIN_HASH_MAX) else prev.adminPasswordHash,
      BoolOr(Get(doc, "ota_enabled"), false),
      if ota.Some? then Truncate(ota.value, OTA_PASSWORD_MAX) else prev.otaPassword,
      IntOr(Get(doc, "log_level"), 2),
      BoolOr(Get(doc, "use_https"), false),
      IntOr(Get(doc, "server_port"), 80))
  }

  function AddressToJson(a: seq<byte>): Json
  {
    JArr(seq(|a|, i requires 0 <= i < |a| => JInt(a[i])))
  }

  /** One saved network; the addresses only when static addressing is on. */
  function NetworkToJson(n: Network): Json
  {
    JObj(map["ssid" := JStr(n.ssid), "password" := JStr(n.password), "priority" := JInt(n.priority)] +
      (if n.useStaticIp
       then map["use_static_ip" := JBool(true), "static_ip" := AddressToJson(n.staticIp),
                "gateway" := AddressToJson(n.gateway)]
       else map[]))
  }

  function NetworksToJson(nets: seq<Network>): Json
  {
    JArr(seq(|nets|, i requires 0 <= i < |nets| => NetworkToJson(nets[i])))
  }

  /** The document saveConfiguration builds. */
  function SaveDocument(nets: seq<Network>, camera: map<string, int>, sys: SystemSettings): Json
  {
    JObj(map[
      "networks" := NetworksToJson(nets),
      "camera" := CameraToJson(camera),
      "admin_password_hash" := JStr(sys.adminPasswordHash),
      "ota_enabled" := JBool(sys.otaEnabled),
      "ota_password" := JStr(sys.otaPassword),
      "log_level" := JInt(sys.logLevel),
      "use_https" := JBool(sys.useHttps),
      "server_port" := JInt(sys.serverPort)])
  }

  predicate NetworkWellFormed(n: Network)
  {
    |n.ssid| <= SSID_MAX && |n.password| <= PASSWORD_MAX &&
    INT_MIN <= n.priority <= INT_MAX && |n.staticIp| == 4 && |n.gateway| == 4
  }

  predicate SystemWellFormed(s: SystemSettings)
  {
    |s.adminPasswordHash| <= ADMIN_HASH_MAX && |s.otaPassword| <= OTA_PASSWORD_MAX &&
    INT_MIN <= s.logLevel <= INT_MAX && INT_MIN <= s.serverPort <= INT_MAX
  }

  lemma AddressRoundTrip(a: seq<byte>)
    requires |a| == 4
    ensures Items(AddressToJson(a)) == AddressToJson(a).items
    ensures |AddressToJson(a).items| == 4 && Bytes4(AddressToJson(a).items) == a
  {
  }

  /** An address saved as four decimal strings loads as those four bytes. */
  lemma TextAddressLoads(a: seq<byte>)
    requires |a| == 4
    ensures Bytes4(seq(4, i requires 0 <= i < 4 => JStr(NatToString(a[i])))) == a
  {
    ByteOfReadsText(a[0]);
    ByteOfReadsText(a[1]);
    ByteOfReadsText(a[2]);
    ByteOfReadsText(a[3]);
  }

  /** A saved network loads back into its own slot unchanged. */
  lemma NetworkRoundTrip(n: Network)
    requires NetworkWellFormed(n)
    ensures IsEntry(NetworkToJson(n))
    ensures ParseNetwork(NetworkToJson(n), n) == n
  {
    NetworkLoadsOver(n, n);
  }

  /**
   * Loaded over any earlier slot, a saved network comes back whole when
   * static addressing is on; otherwise its addresses are the slot's
   * earlier ones, since the document does not carry them.
   */
  lemma NetworkLoadsOver(n: Network, prev: Network)
    requires NetworkWellFormed(n)
    ensures IsEntry(NetworkToJson(n))
    ensures ParseNetwork(NetworkToJson(n), prev) ==
      if n.useStaticIp then n else n.(staticIp := prev.staticIp, gateway := prev.gateway)
  {
    var j := NetworkToJson(n);
    assert Get(j, "ssid") == JStr(n.ssid);
    assert Get(j, "password") == JStr(n.password);
    if n.useStaticIp {
      AddressRoundTrip(n.staticIp);
      AddressRoundTrip(n.gateway);
      assert Get(j, "static_ip") == AddressToJson(n.staticIp);
      assert Get(j, "gateway") == AddressToJson(n.gateway);
    } else {
      assert !Has(j, "use_static_ip");
    }
  }

  /** The saved "networks" array loads back into the slots in use and no others. */
  lemma SavedNetworksRoundTrip(nets: seq<Network>, count: nat)
    requires |nets| == MAX_WIFI_NETWORKS && count <= MAX_WIFI_NETWORKS
    requires forall i :: 0 <= i < count ==> NetworkWellFormed(nets[i])
    ensures Min(MAX_WIFI_NETWORKS, |Accepted(NetworksToJson(nets[..count]).items)|) == count
    ensures LoadedNetworks(NetworksToJson(nets[..count]).items, nets) == nets
  {
    var items := NetworksToJson(nets[..count]).items;
    forall i | 0 <= i < |items|
      ensures IsEntry(items[i]) && ParseNetwork(items[i], nets[i]) == nets[i]
    {
      NetworkRoundTrip(nets[i]);
    }
    AcceptedAll(items);
    var r := LoadedNetworks(items, nets);
    forall k | 0 <= k < MAX_WIFI_NETWORKS
      ensures r[k] == nets[k]
    {
    }
  }

  /** The saved system settings load back unchanged. */
  lemma SavedSystemRoundTrip(nets: seq<Network>, camera: map<string, int>, sys: SystemSettings)
    requires SystemWellFormed(sys)
    ensures ParseSystem(SaveDocument(nets, camera, sys), sys) == sys
  {
    var doc := SaveDocument(nets, camera, sys);
    assert Get(doc, "admin_password_hash") == JStr(sys.adminPasswordHash);
    assert Get(doc, "ota_password") == JStr(sys.otaPassword);
    assert Get(doc, "ota_enabled") == JBool(sys.otaEnabled);
    assert Get(doc, "log_level") == JInt(sys.logLevel);
    assert Get(doc, "use_https") == JBool(sys.useHttps);
    assert Get(doc, "server_port") == JInt(sys.serverPort);
  }

  /** A saved document passes validation exactly when its quality is in range. */
  lemma SavedDocumentValid(nets: seq<Network>, camera: map<string, int>, sys: SystemSettings)
    requires CameraWellFormed(camera)
    ensures Validate(SaveDocument(nets, camera, sys)) <==> QUALITY_MIN <= camera["quality"] <= QUALITY_MAX
  {
    var doc := SaveDocument(nets, camera, sys);
    assert Get(doc, "camera") == CameraToJson(camera);
    assert Get(CameraToJson(camera), "quality") == JInt(camera["quality"]);
  }

  /**
   * Save then load restores every network slot in use, the camera section
   * and the system settings, and the saved document passes validation
   * exactly when the quality is in range.
   */
  lemma SaveLoadRoundTrip(nets: seq<Network>, count: nat, camera: map<string, int>, sys: SystemSettings)
    requires |nets| == MAX_WIFI_NETWORKS && count <= MAX_WIFI_NETWORKS
    requires forall i :: 0 <= i < count ==> NetworkWellFormed(nets[i])
    requires CameraWellFormed(camera) && SystemWellFormed(sys)
    ensures var doc := SaveDocument(nets[..count], camera, sys);
      && (Validate(doc) <==> QUALITY_MIN <= camera["quality"] <= QUALITY_MAX)
      && Min(MAX_WIFI_NETWORKS, |Accepted(Items(Get(doc, "networks")))|) == count
      && LoadedNetworks(Items(Get(doc, "networks")), nets) == nets
      && ParseCamera(Get(doc, "camera")) == camera
      && ParseSystem(doc, sys) == sys
  {
    SavedSections(nets[..count], camera, sys);
    SavedNetworksRoundTrip(nets, count);
    SavedSystemRoundTrip(nets[..count], camera, sys);
    SavedDocumentValid(nets[..count], camera, sys);
    CameraRoundTrip(camera);
  }

  /** The "networks" and "camera" sections of the saved document. */
  lemma SavedSections(nets: seq<Network>, camera: map<string, int>, sys: SystemSettings)
    ensures Items(Get(SaveDocument(nets, camera, sys), "networks")) == NetworksToJson(nets).items
    ensures Get(SaveDocument(nets, camera, sys), "camera") == CameraToJson(camera)
  {
  }

  /** The slots as setDefaultConfiguration leaves them, before the boot-time load. */
  const EMPTY_TABLE: seq<Network> := seq(MAX_WIFI_NETWORKS, _ => EMPTY_NETWORK)

  /**
   * The boot case: the saved document loaded over zero-filled slots gives
   * back every network in use with its name, password, priority and
   * addressing mode, its addresses only when static addressing is on
   * (0.0.0.0 otherwise), and leaves the other slots empty.
   */
  lemma BootLoadRestores(nets: seq<Network>, count: nat, camera: map<string, int>, sys: SystemSettings)
    requires |nets| == MAX_WIFI_NETWORKS && count <= MAX_WIFI_NETWORKS
    requires forall i :: 0 <= i < count ==> NetworkWellFormed(nets[i])
    ensures var loaded := LoadedNetworks(Items(Get(SaveDocument(nets[..count], camera, sys), "networks")), EMPTY_TABLE);
      && (forall k :: 0 <= k < count ==>
            (loaded[k] == if nets[k].useStaticIp then nets[k]
                          else nets[k].(staticIp := EMPTY_NETWORK.staticIp, gateway := EMPTY_NETWORK.gateway)))
      && (forall k :: count <= k < MAX_WIFI_NETWORKS ==> loaded[k] == EMPTY_NETWORK)
  {
    var items := NetworksToJson(nets[..count]).items;
    SavedSections(nets[..count], camera, sys);
    forall i | 0 <= i < |items|
      ensures IsEntry(items[i])
      && ParseNetwork(items[i], EMPTY_NETWORK) ==
           if nets[i].useStaticIp then nets[i]
           else nets[i].(staticIp := EMPTY_NETWORK.staticIp, gateway := EMPTY_NETWORK.gateway)
    {
      NetworkLoadsOver(nets[i], EMPTY_NETWORK);
    }
    AcceptedAll(items);
  }

  // ---------------------------------------------------------------------
  // Load source selection
  // ---------------------------------------------------------------------

  /** A stored copy of the configuration text, as load sees it. */
  datatype Source = NoText | Unparseable | Parsed(doc: Json)

  /**
   * The document load uses: the SD copy if the card is mounted and its copy
   * parses and validates, otherwise the NVS copy if it parses and validates.
   */
  function ChooseDocument(sdMounted: bool, sd: Source, nvs: Source): (d: Option<Json>)
    ensures d.Some? ==> Validate(d.value)
    ensures sdMounted && sd.Parsed? && Validate(sd.doc) ==> d == Some(sd.doc)
    ensures !(sdMounted && sd.Parsed? && Validate(sd.doc)) ==>
      d == (if nvs.Parsed? && Validate(nvs.doc) then Some(nvs.doc) else None)
  {
    if sdMounted && sd.Parsed? && Validate(sd.doc) then Some(sd.doc)
    else if nvs.Parsed? && Validate(nvs.doc) then Some(nvs.doc)
    else None
  }

  /** Where the configuration is stored. */
  const CONFIG_FILE_PATH: string := "/config/config.json"
  const CONFIG_BACKUP_PATH: string := "/config/config.bak"

  /** A stored copy resetConfiguration erases. */
  datatype Erase = DeleteSdFile(path: string) | ClearNvs

  /**
   * Once reset has erased the stored copies, the next load finds no
   * document on either side, fails, and the defaults stay in effect.
   */
  lemma ErasedLoadFails(sdMounted: bool)
    ensures ChooseDocument(sdMounted, NoText, NoText).None?
  {
  }

  /** g_config. */
  class Store {
    const networks: array<Network>
    var networkCount: nat
    var camera: map<string, int>
    var system: SystemSettings

    predicate Valid()
      reads this
    {
      networks.Length == MAX_WIFI_NETWORKS && networkCount <= MAX_WIFI_NETWORKS
    }

    predicate IsDefault()
      reads this, networks
    {
      networkCount == 0 && camera == DEFAULT_CAMERA && system == DEFAULT_SYSTEM &&
      forall k :: 0 <= k < networks.Length ==> networks[k] == EMPTY_NETWORK
    }

    constructor ()
      ensures Valid() && IsDefault() && fresh(networks)
    {
      networks := new Network[MAX_WIFI_NETWORKS](_ => EMPTY_NETWORK);
      networkCount := 0;
      camera := DEFAULT_CAMERA;
      system := DEFAULT_SYSTEM;
    }

    /** setDefaultConfiguration: empty network list, zeroed slots, default camera and system settings. */
    method SetDefaults()
      requires Valid()
      modifies this, networks
      ensures Valid() && IsDefault()
    {
      networkCount := 0;
      forall k | 0 <= k < networks.Length {
        networks[k] := EMPTY_NETWORK;
      }
      camera := DEFAULT_CAMERA;
      system := DEFAULT_SYSTEM;
    }

    /**
     * The "networks" loop of loadConfiguration: the count restarts at 0,
     * each qualifying entry fills the next slot, and the loop stops once
     * MAX_WIFI_NETWORKS slots are filled.
     */
    method ParseNetworks(items: seq<Json>)
      requires Valid()
      modifies this`networkCount, networks
      ensures Valid()
      ensures networkCount == Min(MAX_WIFI_NETWORKS, |Accepted(items)|)
      ensures networks[..] == LoadedNetworks(items, old(networks[..]))
    {
      ghost var prev := networks[..];
      ghost var acc: seq<Json> := [];
      var count := 0;
      var i := 0;
      while i < |items|
        invariant 0 <= i <= |items|
        invariant acc == Accepted(items[..i])
        invariant count == |acc| <= MAX_WIFI_NETWORKS
        invariant networks[..] == Overlay(acc, prev)
      {
        if count >= MAX_WIFI_NETWORKS {
          break;
        }
        AcceptedStep(items, i);
        if IsEntry(items[i]) {
          OverlayStep(acc, items[i], prev);
          assert networks[count] == networks[..][count] == prev[count];
          networks[count] := ParseNetwork(items[i], networks[count]);
          acc := acc + [items[i]];
          count := count + 1;
        }
        i := i + 1;
      }
      AcceptedPrefix(items, i);
      if i < |items| {
        OverlayPrefix(Accepted(items[..i]), Accepted(items), prev);
      } else {
        assert items[..i] == items;
      }
      networkCount := count;
    }

    /** loadConfiguration: on success the chosen document is applied; on failure nothing changes. */
    method Load(sdMounted: bool, sd: Source, nvs: Source) returns (ok: bool)
      requires Valid()
      modifies this, networks
      ensures Valid()
      ensures ok <==> ChooseDocument(sdMounted, sd, nvs).Some?
      ensures !ok ==> (networkCount == old(networkCount) && networks[..] == old(networks[..]) &&
        camera == old(camera) && system == old(system))
      ensures ok ==> (
        var doc := ChooseDocument(sdMounted, sd, nvs).value;
        && (Has(doc, "networks") ==>
             networkCount == Min(MAX_WIFI_NETWORKS, |Accepted(Items(Get(doc, "networks")))|) &&
             networks[..] == LoadedNetworks(Items(Get(doc, "networks")), old(networks[..])))
        && (!Has(doc, "networks") ==> networkCount == old(networkCount) && networks[..] == old(networks[..]))
        && camera == ParseCamera(Get(doc, "camera"))
        && system == ParseSystem(doc, old(system)))
    {
      var doc: Json;
      if sdMounted && sd.Parsed? && Validate(sd.doc) {
        doc := sd.doc;
      } else if nvs.Parsed? {
        if !Validate(nvs.doc) {
          return false;
        }
        doc := nvs.doc;
      } else {
        return false;
      }
      if Has(doc, "networks") {
        ParseNetworks(Items(Get(doc, "networks")));
      }
      if Has(doc, "camera") {
        camera := ParseCamera(Get(doc, "camera"));
      }
      system := ParseSystem(doc, system);
      ok := true;
    }

    /**
     * saveConfiguration: builds the document from the slots in use and
     * succeeds when either the SD write or the NVS write succeeds.
     */
    method Save(sdMounted: bool, sdWriteOk: bool, nvsWriteOk: bool) returns (ok: bool, doc: Json)
      requires Valid()
      ensures doc == SaveDocument(networks[..networkCount], camera, system)
      ensures ok <==> (sdMounted && sdWriteOk) || nvsWriteOk
    {
      doc := SaveDocument(networks[..networkCount], camera, system);
      var savedToSd := false;
      if sdMounted {
        savedToSd := sdWriteOk;
      }
      var savedToNvs := nvsWriteOk;
      ok := savedToSd || savedToNvs;
    }

    /**
     * resetConfiguration: back to the defaults, and the stored copies are
     * erased: both SD files when the card is mounted (their deletion
     * results are ignored), then the NVS namespace. Always successful.
     */
    method Reset(sdMounted: bool) returns (ok: bool, erased: seq<Erase>)
      requires Valid()
      modifies this, networks
      ensures Valid() && IsDefault() && ok
      ensures erased == (if sdMounted then [DeleteSdFile(CONFIG_FILE_PATH), DeleteSdFile(CONFIG_BACKUP_PATH)] else [])
        + [ClearNvs]
    {
      SetDefaults();
      erased := [];
      if sdMounted {
        erased := erased + [DeleteSdFile(CONFIG_FILE_PATH)];
        erased := erased + [DeleteSdFile(CONFIG_BACKUP_PATH)];
      }
      erased := erased + [ClearNvs];
      ok := true;
    }
  }
}
