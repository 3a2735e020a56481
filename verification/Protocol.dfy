/** The request record shared by the clients, the daemon and its queue, and the few
    constants the daemon is built around. */
module Protocol {

  const FD_INVALID := -1
  const METATILE := 8
  const MAX_ZOOM := 20
  const MAX_CONNECTIONS := 2048
  const PATH_MAX := 4096
  const XMLCONFIG_DEFAULT := "default"

  datatype Option<+T> = None | Some(value: T)

  datatype Cmd =
    | CmdIgnore | CmdRender | CmdDirty | CmdDone | CmdNotDone
    | CmdRenderPrio | CmdRenderBulk | CmdRenderLow

  /** The strings are the C strings held in the fixed-size fields: up to the first NUL. */
  datatype Request = Request(ver: int, cmd: Cmd, x: int, y: int, z: int,
                             xmlname: string, mimetype: string, options: string)

  /** Commands whose sender waits for an answer. */
  predicate IsRenderCmd(c: Cmd) {
    c == CmdRender || c == CmdRenderPrio || c == CmdRenderLow || c == CmdRenderBulk
  }

  /** rx_request brings version 1 and 2 requests up to version 3 in place. */
  function Upgrade(r: Request): Request {
    var named := if r.ver == 1 then r.(xmlname := XMLCONFIG_DEFAULT) else r;
    if r.ver < 3 then named.(mimetype := "image/png", options := "") else named
  }

  /** `v & ~(METATILE - 1)`: the metatile corner below `v`, also for negative `v`. */
  function Corner(v: int): (c: int)
    ensures c <= v < c + METATILE && c % METATILE == 0
  {
    v - v % METATILE
  }

  /** What makes two requests ask for the same metatile. */
  datatype Key = Key(xmlname: string, z: int, mx: int, my: int)

  function KeyOf(r: Request): Key {
    Key(r.xmlname, r.z, Corner(r.x), Corner(r.y))
  }

  /** Both requests are for tiles of the same 8x8 square of the same map. */
  predicate AskForTheSame(a: Request, b: Request) {
    a.xmlname == b.xmlname && a.z == b.z && Corner(a.x) == Corner(b.x) && Corner(a.y) == Corner(b.y)
  }

  lemma KeyTellsMetatile(a: Request, b: Request)
    ensures KeyOf(a) == KeyOf(b) <==> AskForTheSame(a, b)
  {
  }

  function Pow2(n: nat): (p: nat)
    ensures p > 0
  {
    if n == 0 then 1 else 2 * Pow2(n - 1)
  }

  lemma {:induction false} Pow2Grows(a: nat, b: nat)
    requires a <= b
    ensures Pow2(a) <= Pow2(b)
  {
    if a < b {
      Pow2Grows(a, b - 1);
    }
  }

  lemma Pow2Of20()
    ensures Pow2(20) == 0x10_0000
  {
    assert Pow2(8) == 0x100;
    assert Pow2(16) == 0x1_0000;
  }
}
