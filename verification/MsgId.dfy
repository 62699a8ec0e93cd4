/** The generated message-id tables, and the lookups the two sides of a call make in them. */
module MsgId {

  const NAME_ROWS: seq<(int, string)> := [
    (0, "None"), (1101, "PChatLoginReq"), (1102, "PChatLoginResp"), (1103, "PChatLogoutReq"),
    (1104, "PChatLogoutResp"), (1105, "PChatUserMessage"), (1201, "PChatGetUserInfoReq"),
    (1202, "PChatGetUserInfoResp"), (1301, "PChatCreateRoomReq"), (1302, "PChatCreateRoomResp"),
    (1303, "PChatJoinRoomReq"), (1304, "PChatJoinRoomResp"), (1305, "PChatLeaveRoomReq"),
    (1306, "PChatLeaveRoomResp"), (1307, "PChatGetRoomInfoReq"), (1308, "PChatGetRoomInfoResp"),
    (1309, "PChatGetRoomUsersReq"), (1310, "PChatGetRoomUsersResp"), (1401, "PChatSendMessageReq"),
    (1402, "PChatSendMessageResp"), (1403, "PChatGetMessagesReq"), (1404, "PChatGetMessagesResp"),
    (1501, "PChatGetRoomListReq"), (1502, "PChatGetRoomListResp")]

  const ID_ROWS: seq<(string, int)> := [
    ("None", 0), ("PChatLoginReq", 1101), ("PChatLoginResp", 1102), ("PChatLogoutReq", 1103),
    ("PChatLogoutResp", 1104), ("PChatUserMessage", 1105), ("PChatGetUserInfoReq", 1201),
    ("PChatGetUserInfoResp", 1202), ("PChatCreateRoomReq", 1301), ("PChatCreateRoomResp", 1302),
    ("PChatJoinRoomReq", 1303), ("PChatJoinRoomResp", 1304), ("PChatLeaveRoomReq", 1305),
    ("PChatLeaveRoomResp", 1306), ("PChatGetRoomInfoReq", 1307), ("PChatGetRoomInfoResp", 1308),
    ("PChatGetRoomUsersReq", 1309), ("PChatGetRoomUsersResp", 1310), ("PChatSendMessageReq", 1401),
    ("PChatSendMessageResp", 1402), ("PChatGetMessagesReq", 1403), ("PChatGetMessagesResp", 1404),
    ("PChatGetRoomListReq", 1501), ("PChatGetRoomListResp", 1502)]

  function Table<K, V>(rows: seq<(K, V)>): map<K, V> {
    if rows == [] then map[] else Table(rows[..|rows| - 1])[rows[|rows| - 1].0 := rows[|rows| - 1].1]
  }

  const NAME_OF := Table(NAME_ROWS)

  const ID_OF := Table(ID_ROWS)

  lemma {:induction false} TableHolds<K, V>(rows: seq<(K, V)>)
    requires forall i, j | 0 <= i < j < |rows| :: rows[i].0 != rows[j].0
    ensures forall i | 0 <= i < |rows| :: rows[i].0 in Table(rows) && Table(rows)[rows[i].0] == rows[i].1
    ensures forall k | k in Table(rows) :: exists i :: 0 <= i < |rows| && rows[i].0 == k
  {
    if rows != [] {
      var front := rows[..|rows| - 1];
      TableHolds(front);
      forall i | 0 <= i < |rows| ensures rows[i].0 in Table(rows) && Table(rows)[rows[i].0] == rows[i].1 {
        assert i < |front| ==> front[i] == rows[i];
      }
      forall k | k in Table(rows) ensures exists i :: 0 <= i < |rows| && rows[i].0 == k {
        if k in Table(front) {
          var i :| 0 <= i < |front| && front[i].0 == k;
          assert rows[i].0 == k;
        }
      }
    }
  }

  /** The length and two letters of a name tell which one it is. */
  function Fingerprint(s: string): (int, char, char) {
    if |s| < 9 then (|s|, ' ', ' ') else (|s|, s[|s| - 9], s[|s| - 6])
  }

  function IdOfFingerprint(f: (int, char, char)): int {
    match f
    case (13, 't', 'g') => 1101
    case (14, 'L', 'i') => 1102
    case (14, 'L', 'o') => 1103
    case (15, 'o', 'u') => 1104
    case (16, 'e', 'e') => 1105
    case (19, 'e', 'n') => 1201
    case (20, 'r', 'f') => 1202
    case (18, 't', 'o') => 1301
    case (19, 'e', 'o') => 1302
    case (16, 'i', 'o') => 1303
    case (17, 'n', 'o') => 1304
    case (17, 'v', 'o') => 1305
    case (18, 'e', 'o') => 1306
    case (19, 'o', 'n') => 1307
    case (20, 'm', 'f') => 1308
    case (20, 'm', 'e') => 1309
    case (21, 'U', 'r') => 1310
    case (19, 'e', 'a') => 1401
    case (20, 's', 'g') => 1402
    case (19, 's', 'g') => 1403
    case (20, 's', 'e') => 1404
    case (19, 'o', 'i') => 1501
    case (20, 'm', 's') => 1502
    case _ => 0
  }

  lemma RowsAgree()
    ensures |NAME_ROWS| == |ID_ROWS|
    ensures forall i | 0 <= i < |ID_ROWS| :: NAME_ROWS[i] == (ID_ROWS[i].1, ID_ROWS[i].0)
  {
  }

  lemma FingerprintsTell()
    ensures forall i | 0 <= i < |ID_ROWS| :: IdOfFingerprint(Fingerprint(ID_ROWS[i].0)) == ID_ROWS[i].1
  {
  }

  lemma IdsAscend()
    ensures forall i, j | 0 <= i < j < |ID_ROWS| :: ID_ROWS[i].1 < ID_ROWS[j].1
  {
  }

  /** The tables are mutually inverse. */
  lemma TablesAreInverse(name: string, id: int)
    ensures name in ID_OF && ID_OF[name] == id <==> id in NAME_OF && NAME_OF[id] == name
  {
    RowsAgree();
    FingerprintsTell();
    IdsAscend();
    TableHolds(NAME_ROWS);
    TableHolds(ID_ROWS);
  }

  lemma NamesAreNotEmpty()
    ensures forall i | i in NAME_OF :: NAME_OF[i] != ""
  {
    RowsAgree();
    IdsAscend();
    TableHolds(NAME_ROWS);
    RowsNotEmpty();
  }

  lemma RowsNotEmpty()
    ensures forall i | 0 <= i < |ID_ROWS| :: |ID_ROWS[i].0| >= 4
  {
  }

  /** The type behind an id: its name without the leading letter. */
  function TypeName(id: int): string
    requires id in NAME_OF
  {
    NamesAreNotEmpty();
    NAME_OF[id][1..]
  }

  /** The id of a message type; 0 stands for an unknown one. */
  function IdFor(name: string): int {
    if "P" + name in ID_OF then ID_OF["P" + name] else 0
  }

  /** The registered message types. */
  predicate TypeExists(name: string) {
    IdFor(name) != 0 || name in {"ChatMessage", "ChatUserInfo", "ChatRoomInfo"}
  }

  lemma KnownName(name: string)
    requires IdFor(name) != 0
    ensures IdFor(name) in NAME_OF && TypeName(IdFor(name)) == name
  {
    TablesAreInverse("P" + name, IdFor(name));
    assert ("P" + name)[1..] == name;
  }

  /** Row `i` of the table is the one of this type. */
  lemma RowIs(i: nat, name: string)
    requires i < |ID_ROWS| && ID_ROWS[i].0 == "P" + name
    ensures IdFor(name) == ID_ROWS[i].1
  {
    FingerprintsTell();
    IdsAscend();
    TableHolds(ID_ROWS);
  }

  /** The row of id 0, which no type goes by. */
  lemma NoneRow()
    ensures 0 in NAME_OF && NAME_OF[0] == "None" && IdFor("one") == 0
  {
    ZeroIsNone();
    NoRowFor("Pone");
    assert "P" + "one" == "Pone";
  }

  lemma ZeroIsNone()
    ensures 0 in NAME_OF && NAME_OF[0] == "None"
  {
    RowsAgree();
    IdsAscend();
    TableHolds(NAME_ROWS);
    FirstRow();
  }

  lemma FirstRow()
    ensures |NAME_ROWS| > 0 && NAME_ROWS[0] == (0, "None")
  {
  }

  lemma NoRowFor(name: string)
    requires IdOfFingerprint(Fingerprint(name)) == 0
    ensures name in ID_OF ==> ID_OF[name] == 0
  {
    FingerprintsTell();
    IdsAscend();
    TableHolds(ID_ROWS);
  }
}
