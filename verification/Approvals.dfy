/** Checking a device's approval (aikiri_ledger/approval.py). */
module Approvals {
  import opened Wrappers
  import opened Bytes
  import opened Canonical
  import opened Crypto
  import opened Messages

  datatype ApprovalKey = ApprovalKey(device: string, pubkey: string)

  /** As parsed: the three keys are there, their values are whatever the file had. */
  datatype Approval = Approval(device: Json, pubkey: Json, sig: Json)

  datatype Refusal = Malformed | NotRegistered | WrongKeyForDevice | DoesNotCover

  /** `plain_str`. */
  predicate PlainStr(w: World, s: string, maxLen: nat) {
    && 1 <= |s| <= maxLen
    && w.nfc(s)
    && forall i | 0 <= i < |s| :: s[i] as int >= 0x20 && s[i] as int != 0x7F
  }

  /** `_load_pubkey`: an uncompressed point on the curve. */
  predicate IsPublicKey(w: World, pubkey: string) {
    IsHexStr(pubkey) && |pubkey| == 130 && FromHex(pubkey)[0] == 0x04 && w.onCurve(FromHex(pubkey))
  }

  /** `verify_signature`. */
  predicate Signs(w: World, pubkey: string, message: Bytes, sig: string) {
    IsPublicKey(w, pubkey) && IsHexStr(sig) && w.p256(FromHex(pubkey), message, FromHex(sig))
  }

  /** The device dict: a label given twice keeps its last key. */
  function Known(keys: seq<ApprovalKey>): (known: map<string, string>) {
    if keys == [] then map[]
    else
      var last := keys[|keys| - 1];
      Known(keys[..|keys| - 1])[last.device := last.pubkey]
  }

  /** `verify_approval`: the reason it is refused, if it is. */
  function VerifyApproval(w: World, a: Approval, s: Statement, registered: Option<seq<ApprovalKey>>): (r: Option<Refusal>)
  {
    if !a.device.Str? || !PlainStr(w, a.device.s, 64) then Some(Malformed)
    else if !a.pubkey.Str? || !IsPublicKey(w, a.pubkey.s) then Some(Malformed)
    else if !a.sig.Str? || !IsHexStr(a.sig.s) then Some(Malformed)
    else if registered.Some? && a.device.s !in Known(registered.value) then Some(NotRegistered)
    else if registered.Some? && Known(registered.value)[a.device.s] != a.pubkey.s then Some(WrongKeyForDevice)
    else if !Signs(w, a.pubkey.s, ApprovalMessage(s), a.sig.s) then Some(DoesNotCover)
    else None
  }

  /** A registered device: its label, and the key that label has last. */
  ghost predicate Registered(keys: seq<ApprovalKey>, device: string, pubkey: string) {
    exists i | 0 <= i < |keys| :: keys[i] == ApprovalKey(device, pubkey)
      && forall j | i < j < |keys| :: keys[j].device != device
  }

  lemma {:induction false} KnownIffRegistered(keys: seq<ApprovalKey>, device: string, pubkey: string)
    ensures (device in Known(keys) && Known(keys)[device] == pubkey) <==> Registered(keys, device, pubkey)
  {
    if keys != [] {
      var n := |keys| - 1;
      var before := keys[..n];
      KnownIffRegistered(before, device, pubkey);
      if keys[n].device == device {
        if keys[n].pubkey == pubkey {
          assert keys[n] == ApprovalKey(device, pubkey);
        }
      } else if Registered(before, device, pubkey) {
        var i :| 0 <= i < n && before[i] == ApprovalKey(device, pubkey)
          && forall j | i < j < n :: before[j].device != device;
        assert keys[i] == before[i];
        forall j | i < j < |keys| ensures keys[j].device != device {
          assert j < n ==> keys[j] == before[j];
        }
      }
    }
  }

  /** An approval stands: a registered device's signature over exactly this statement. */
  ghost predicate Approved(w: World, a: Approval, s: Statement, keys: seq<ApprovalKey>) {
    && a.device.Str? && PlainStr(w, a.device.s, 64)
    && a.pubkey.Str? && a.sig.Str?
    && Registered(keys, a.device.s, a.pubkey.s)
    && Signs(w, a.pubkey.s, ApprovalMessage(s), a.sig.s)
  }

  lemma AcceptedIffApproved(w: World, a: Approval, s: Statement, keys: seq<ApprovalKey>)
    ensures VerifyApproval(w, a, s, Some(keys)).None? <==> Approved(w, a, s, keys)
  {
    if a.device.Str? && a.pubkey.Str? {
      KnownIffRegistered(keys, a.device.s, a.pubkey.s);
    }
  }
}
