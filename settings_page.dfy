/**
 * The settings page's list of payment QR codes. The list lives in page state,
 * starts with two sample codes, and the trash button filters one id out.
 */
module SettingsPage {
  import opened FundTypes

  /** initialQrCodes. */
  const InitialQrCodes: seq<QrCode> := [
    QrCode("qr1", "GPay Business", "https://picsum.photos/seed/qr1/300/300"),
    QrCode("qr2", "PhonePe Personal", "https://picsum.photos/seed/qr2/300/300")
  ]

  /** `prev.filter(qr => qr.id !== id)`. */
  function WithoutQrCode(codes: seq<QrCode>, id: string): (r: seq<QrCode>)
    ensures forall c :: c in r <==> c in codes && c.id != id
    ensures |r| <= |codes|
  {
    if codes == [] then []
    else
      var last := codes[|codes| - 1];
      WithoutQrCode(codes[..|codes| - 1], id) + (if last.id == id then [] else [last])
  }

  /** The kept codes stay in their relative order: the filter distributes over concatenation. */
  lemma {:induction false} WithoutQrCodeAppend(a: seq<QrCode>, b: seq<QrCode>, id: string)
    decreases |b|
    ensures WithoutQrCode(a + b, id) == WithoutQrCode(a, id) + WithoutQrCode(b, id)
  {
    if b == [] {
      assert a + b == a;
    } else {
      var n := |b| - 1;
      assert (a + b)[..|a + b| - 1] == a + b[..n];
      WithoutQrCodeAppend(a, b[..n], id);
    }
  }

  /** Deleting an id no code carries leaves the list exactly as it was. */
  lemma {:induction false} DeleteAbsentUnchanged(codes: seq<QrCode>, id: string)
    requires forall i :: 0 <= i < |codes| ==> codes[i].id != id
    ensures WithoutQrCode(codes, id) == codes
  {
    if codes != [] {
      var init := codes[..|codes| - 1];
      DeleteAbsentUnchanged(init, id);
      assert codes == init + [codes[|codes| - 1]];
    }
  }

  /** Deleting the same id twice is the same as deleting it once. */
  lemma DeleteIdempotent(codes: seq<QrCode>, id: string)
    ensures WithoutQrCode(WithoutQrCode(codes, id), id) == WithoutQrCode(codes, id)
  {
    var r := WithoutQrCode(codes, id);
    assert forall i :: 0 <= i < |r| ==> r[i] in r;
    DeleteAbsentUnchanged(r, id);
  }

  /** Deletions of two ids can happen in either order. */
  lemma {:induction false} DeletesCommute(codes: seq<QrCode>, id1: string, id2: string)
    ensures WithoutQrCode(WithoutQrCode(codes, id1), id2) == WithoutQrCode(WithoutQrCode(codes, id2), id1)
  {
    if codes != [] {
      var init, last := codes[..|codes| - 1], codes[|codes| - 1];
      DeletesCommute(init, id1, id2);
      var k1 := if last.id == id1 then [] else [last];
      var k2 := if last.id == id2 then [] else [last];
      WithoutQrCodeAppend(WithoutQrCode(init, id1), k1, id2);
      WithoutQrCodeAppend(WithoutQrCode(init, id2), k2, id1);
      assert [last][..0] == [];
    }
  }

  /** The page starts with the two sample codes qr1 and qr2; deleting qr1 leaves qr2 alone. */
  lemma InitialCodes()
    ensures |InitialQrCodes| == 2 && InitialQrCodes[0].id == "qr1" && InitialQrCodes[1].id == "qr2"
    ensures WithoutQrCode(InitialQrCodes, "qr1") == [InitialQrCodes[1]]
  {
    var c1, c2 := InitialQrCodes[0], InitialQrCodes[1];
    assert InitialQrCodes[..1] == [c1];
    assert [c1][..0] == [];
    assert c1.id != c2.id;
  }

  class QrCodeList {
    var qrCodes: seq<QrCode>

    constructor ()
      ensures qrCodes == InitialQrCodes
    {
      qrCodes := InitialQrCodes;
    }

    /** handleDelete. */
    method Delete(id: string)
      modifies this
      ensures qrCodes == WithoutQrCode(old(qrCodes), id)
      ensures forall c :: c in qrCodes ==> c.id != id
    {
      qrCodes := WithoutQrCode(qrCodes, id);
    }
  }
}
