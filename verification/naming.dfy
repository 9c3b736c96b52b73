/** The names and addresses the scripts build for an audio file: the local
    file name, the URL the robot fetches from the local HTTP server, and the
    cache-busting public URL of the published copy. Each builder has a parser
    as its partner, and the round trips give exactly when two names collide. */
module Naming {
  import opened Options
  import opened Strings

  /** `SERVER_PORT`, the port the local HTTP server listens on. */
  const ServerPort: nat := 8000
  const ReplyPrefix := "respuesta_"
  const Mp3Suffix := ".mp3"
  const UrlScheme := "http://"
  /** Characters of the uuid kept in the Bluetooth script's file names. */
  const UuidKept: nat := 8
  /** Public addresses of the two published files. */
  const ChatbotPage := "https://pecec1to.github.io/audio/respuesta_chatbot.mp3"
  const GreetingPage := "https://pecec1to.github.io/audio/mensaje_es.mp3"
  const CacheBustKey := "?cache_bust="

  /** `str(uuid.uuid4())[:8]`: Python slicing keeps the whole string when it
      is shorter than 8 characters. */
  function UuidPrefix(uuid: string): (p: string)
    ensures |p| == if |uuid| < UuidKept then |uuid| else UuidKept
    ensures p <= uuid
  {
    if |uuid| < UuidKept then uuid else uuid[..UuidKept]
  }

  /** `f"respuesta_{unique_id}_{timestamp}.mp3"` of the Bluetooth script. */
  function BluetoothName(uuid: string, timestamp: nat): string {
    ReplyPrefix + UuidPrefix(uuid) + "_" + Dec(timestamp) + Mp3Suffix
  }

  /** `f"respuesta_{timestamp}.mp3"` of the local-server script. */
  function LocalName(timestamp: nat): string {
    ReplyPrefix + Dec(timestamp) + Mp3Suffix
  }

  /** `f"http://{local_ip}:{SERVER_PORT}/{audio_filename}"`. */
  function RobotUrl(localIp: string, name: string): string {
    UrlScheme + localIp + ":" + Dec(ServerPort) + "/" + name
  }

  /** `f"{page}?cache_bust={timestamp}"`. */
  function CacheBustUrl(page: string, timestamp: nat): string {
    page + CacheBustKey + Dec(timestamp)
  }

  /** The text between the fixed prefix and the ".mp3" suffix of a reply
      file name, when the name has both. */
  function NameStem(name: string): (r: Option<string>)
    ensures r.Some? ==> name == ReplyPrefix + r.value + Mp3Suffix
  {
    if |name| < |ReplyPrefix| + |Mp3Suffix|
       || name[..|ReplyPrefix|] != ReplyPrefix
       || name[|name| - |Mp3Suffix|..] != Mp3Suffix
    then None
    else
      var stem := name[|ReplyPrefix|..|name| - |Mp3Suffix|];
      assert name == name[..|ReplyPrefix|] + stem + name[|name| - |Mp3Suffix|..];
      Some(stem)
  }

  lemma NameStemOf(stem: string)
    ensures NameStem(ReplyPrefix + stem + Mp3Suffix) == Some(stem)
  {
    var name := ReplyPrefix + stem + Mp3Suffix;
    assert name[..|ReplyPrefix|] == ReplyPrefix;
    assert name[|name| - |Mp3Suffix|..] == Mp3Suffix;
    assert name[|ReplyPrefix|..|name| - |Mp3Suffix|] == stem;
  }

  /** Recovers the uuid prefix and the timestamp from a Bluetooth file name. */
  function ParseBluetoothName(name: string): Option<(string, nat)> {
    match NameStem(name)
    case None => None
    case Some(stem) =>
      var k := IndexOf(stem, '_');
      if k == |stem| then None
      else
        match ParseDec(stem[k + 1..])
        case None => None
        case Some(t) => Some((stem[..k], t))
  }

  function ParseLocalName(name: string): Option<nat> {
    match NameStem(name)
    case None => None
    case Some(stem) => ParseDec(stem)
  }

  /** Recovers the host and the file name from a robot URL whose host has no
      ':' (every IPv4 address, which is what the local-address probe yields),
      provided the port is the server's. */
  function ParseRobotUrl(url: string): Option<(string, string)> {
    if !StartsWith(url, UrlScheme) then None
    else
      var rest := url[|UrlScheme|..];
      var k := IndexOf(rest, ':');
      var tail := rest[k..];
      var portPart := ":" + Dec(ServerPort) + "/";
      if !StartsWith(tail, portPart) then None
      else Some((rest[..k], tail[|portPart|..]))
  }

  function ParseCacheBustUrl(page: string, url: string): Option<nat> {
    if !StartsWith(url, page + CacheBustKey) then None
    else ParseDec(url[|page + CacheBustKey|..])
  }

  /** The Bluetooth file name keeps the uuid prefix and the timestamp
      recoverable, whenever the prefix holds no '_' (a uuid's text is hex
      digits and '-'). */
  lemma BluetoothNameRoundTrip(uuid: string, timestamp: nat)
    requires '_' !in UuidPrefix(uuid)
    ensures ParseBluetoothName(BluetoothName(uuid, timestamp)) == Some((UuidPrefix(uuid), timestamp))
  {
    var u := UuidPrefix(uuid);
    var stem := u + "_" + Dec(timestamp);
    assert BluetoothName(uuid, timestamp) == ReplyPrefix + stem + Mp3Suffix;
    NameStemOf(stem);
    var k := IndexOf(stem, '_');
    assert stem[|u|] == '_';
    assert k == |u|;
    assert stem[..k] == u;
    assert stem[k + 1..] == Dec(timestamp);
    DecRoundTrip(timestamp);
  }

  /** Two Bluetooth file names coincide exactly when they share the uuid
      prefix and the second. */
  lemma BluetoothNamesCollide(u1: string, t1: nat, u2: string, t2: nat)
    requires '_' !in UuidPrefix(u1) && '_' !in UuidPrefix(u2)
    ensures BluetoothName(u1, t1) == BluetoothName(u2, t2) <==> UuidPrefix(u1) == UuidPrefix(u2) && t1 == t2
  {
    BluetoothNameRoundTrip(u1, t1);
    BluetoothNameRoundTrip(u2, t2);
  }

  lemma LocalNameRoundTrip(timestamp: nat)
    ensures ParseLocalName(LocalName(timestamp)) == Some(timestamp)
  {
    NameStemOf(Dec(timestamp));
    DecRoundTrip(timestamp);
  }

  /** The local-server file name depends on the second alone: two deliveries
      get the same name exactly when they start in the same second. */
  lemma LocalNamesCollide(t1: nat, t2: nat)
    ensures LocalName(t1) == LocalName(t2) <==> t1 == t2
  {
    LocalNameRoundTrip(t1);
    LocalNameRoundTrip(t2);
  }

  /** The port as the URL spells it. */
  lemma PortText()
    ensures Dec(ServerPort) == "8000"
  {
    assert Dec(8) == "8";
    assert Dec(80) == "80";
    assert Dec(800) == "800";
  }

  /** The robot URL names the server's port 8000 and gives back the host and
      the file name it was built from. */
  lemma RobotUrlRoundTrip(localIp: string, name: string)
    requires ':' !in localIp
    ensures StartsWith(RobotUrl(localIp, name), "http://")
    ensures ParseRobotUrl(RobotUrl(localIp, name)) == Some((localIp, name))
  {
    PortText();
    var portPart := ":" + Dec(ServerPort) + "/";
    var url := RobotUrl(localIp, name);
    assert url == UrlScheme + (localIp + portPart + name);
    assert url[..|UrlScheme|] == UrlScheme;
    var rest := url[|UrlScheme|..];
    assert rest == localIp + portPart + name;
    var k := IndexOf(rest, ':');
    assert rest[|localIp|] == ':';
    assert k == |localIp|;
    assert rest[k..] == portPart + name;
    assert rest[..k] == localIp;
    assert (portPart + name)[..|portPart|] == portPart;
    assert (portPart + name)[|portPart|..] == name;
  }

  lemma CacheBustRoundTrip(page: string, timestamp: nat)
    ensures ParseCacheBustUrl(page, CacheBustUrl(page, timestamp)) == Some(timestamp)
  {
    var head := page + CacheBustKey;
    var url := CacheBustUrl(page, timestamp);
    assert url == head + Dec(timestamp);
    assert url[..|head|] == head;
    assert url[|head|..] == Dec(timestamp);
    DecRoundTrip(timestamp);
  }

  /** Cache busting: the public URLs of two deliveries differ exactly when
      they happen in different seconds. */
  lemma CacheBustUrlsDiffer(page: string, t1: nat, t2: nat)
    ensures CacheBustUrl(page, t1) == CacheBustUrl(page, t2) <==> t1 == t2
  {
    CacheBustRoundTrip(page, t1);
    CacheBustRoundTrip(page, t2);
  }
}
