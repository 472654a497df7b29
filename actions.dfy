/**
 * The server actions of src/lib/actions.ts: validate the form, call the tunnel service, and turn its
 * results and exceptions into the records the forms display. The actions keep no state of their own.
 */
module TunnelActions {
  import opened Wrappers
  import opened TunnelTypes
  import opened TunnelLists
  import opened UbuntuTunnelService
  import opened TunnelValidation

  /** The `{message, errors}` record of the add and update actions. */
  datatype FormState = FormState(message: string, errors: map<Field, seq<Issue>>)

  /** The `{success, message, newStatus}` record of the delete and toggle actions. */
  datatype ActionStatus = ActionStatus(success: bool, message: string, newStatus: Option<Status>)

  const IdMissing := "Tunnel ID is missing."

  /** The status literal of src/types/index.ts: each status has its own text. */
  function StatusText(s: Status): (text: string)
    ensures text == "active" <==> s == Active
    ensures text == "inactive" <==> s == Inactive
    ensures text == "error" <==> s == Error
  {
    match s
    case Active => "active"
    case Inactive => "inactive"
    case Error => "error"
  }

  /** The status a toggle asks for: down from active, up from anything else (`error` included). */
  function TargetStatus(current: Status): (target: Status)
    ensures target != Error
    ensures target == Inactive <==> current == Active
  {
    if current == Active then Inactive else Active
  }

  /** Toggling twice from `active` or `inactive` comes back to where it started. */
  lemma ToggleTwice(current: Status)
    requires current != Error
    ensures TargetStatus(TargetStatus(current)) == current
  {
  }

  /**
   * The validated data handed to the service as an update. The parse output carries an `mtu` key,
   * possibly `undefined`, exactly when the form had an mtu entry; every other field is present.
   */
  function AsUpdateData(data: TunnelCreationData, form: RawForm): (u: TunnelUpdateData)
    ensures form.mtu.Some? ==> u == AsUpdate(data)
    ensures form.mtu.None? ==> u == AsUpdate(data).(mtu := None)
  {
    TunnelUpdateData(Some(data.name), Some(data.tunnelType), Some(data.localIp), Some(data.remoteIp),
                     Some(data.assignedIp), if form.mtu.Some? then Some(data.mtu) else None,
                     Some(data.interfaceName))
  }

  /** An update from a form with an mtu entry rewrites every field but id and status. */
  lemma FormUpdateRewritesRecord(t: Tunnel, data: TunnelCreationData, form: RawForm)
    requires form.mtu.Some?
    ensures Merge(t, AsUpdateData(data, form)) == NewTunnel(data, t.id).(status := t.status)
  {
    MergeComplete(t, data);
  }

  /** `addTunnelAction`: invalid forms never reach the service; service failures become messages. */
  method AddTunnelAction(svc: TunnelService, form: RawForm, rec: AddressRecognizers, freshId: string)
    returns (r: FormState)
    modifies svc
    ensures match Validate(form, rec)
            case Invalid(errors) =>
              && r == FormState("Failed to add tunnel due to validation errors.", errors)
              && svc.tunnels == old(svc.tunnels) && svc.executed == old(svc.executed)
            case Valid(data) =>
              var command := AddCommand(data.tunnelType, data.interfaceName, data.localIp, Some(data.remoteIp));
              && r.errors == map[]
              && svc.executed == old(svc.executed) + [command]
              && if Simulate(command).success then
                   r.message == "Tunnel added successfully."
                   && svc.tunnels == old(svc.tunnels) + [NewTunnel(data, freshId)]
                 else
                   r.message == "Error adding tunnel: " + ("Failed to add tunnel: " + Simulate(command).message)
                   && svc.tunnels == old(svc.tunnels)
  {
    var validated := Validate(form, rec);
    if validated.Invalid? {
      return FormState("Failed to add tunnel due to validation errors.", validated.errors);
    }
    var outcome := svc.AddTunnel(validated.data, freshId);
    match outcome
    case Returned(_) =>
      r := FormState("Tunnel added successfully.", map[]);
    case Threw(e) =>
      r := FormState("Error adding tunnel: " + e.message, map[]);
  }

  /**
   * `updateTunnelAction`: an empty id or an invalid form never reaches the service; an unknown id and
   * service failures become messages.
   */
  method UpdateTunnelAction(svc: TunnelService, id: string, form: RawForm, rec: AddressRecognizers)
    returns (r: FormState)
    modifies svc
    ensures id == "" || Validate(form, rec).Invalid? ==>
              svc.tunnels == old(svc.tunnels) && svc.executed == old(svc.executed)
    ensures id == "" ==> r == FormState(IdMissing, map[])
    ensures id != "" && Validate(form, rec).Invalid? ==>
              r == FormState("Failed to update tunnel due to validation errors.", Validate(form, rec).errors)
    ensures id != "" && Validate(form, rec).Valid? ==>
              var i := FindIndex(old(svc.tunnels), id);
              && r.errors == map[]
              && (i == -1 ==> r.message == "Tunnel not found or failed to update."
                              && svc.tunnels == old(svc.tunnels) && svc.executed == old(svc.executed))
              && (i != -1 ==>
                    var merged := Merge(old(svc.tunnels)[i], AsUpdateData(Validate(form, rec).data, form));
                    var command := AddCommand(merged.tunnelType, merged.interfaceName, merged.localIp, merged.remoteIp);
                    && svc.executed == old(svc.executed) + [RemoveCommand(old(svc.tunnels)[i].interfaceName), command]
                    && if Simulate(command).success then
                      r.message == "Tunnel updated successfully." && svc.tunnels == old(svc.tunnels)[i := merged]
                    else
                      r.message == "Error updating tunnel: " + ("Failed to update tunnel: " + Simulate(command).message)
                      && svc.tunnels == old(svc.tunnels))
  {
    if id == "" {
      return FormState(IdMissing, map[]);
    }
    var validated := Validate(form, rec);
    if validated.Invalid? {
      return FormState("Failed to update tunnel due to validation errors.", validated.errors);
    }
    var outcome := svc.UpdateTunnel(id, AsUpdateData(validated.data, form));
    match outcome
    case Returned(None) =>
      r := FormState("Tunnel not found or failed to update.", map[]);
    case Returned(Some(_)) =>
      r := FormState("Tunnel updated successfully.", map[]);
    case Threw(e) =>
      r := FormState("Error updating tunnel: " + e.message, map[]);
  }

  /** `deleteTunnelAction`: reports whether the service found the tunnel. */
  method DeleteTunnelAction(svc: TunnelService, id: string) returns (r: ActionStatus)
    modifies svc
    ensures id == "" ==> r == ActionStatus(false, IdMissing, None)
                         && svc.tunnels == old(svc.tunnels) && svc.executed == old(svc.executed)
    ensures id != "" ==>
              var found := FindIndex(old(svc.tunnels), id) != -1;
              && r.success == found
              && r.message == (if found then "Tunnel deletion process initiated." else "Tunnel not found or failed to delete.")
              && svc.tunnels == RemoveById(old(svc.tunnels), id)
              && svc.executed == old(svc.executed)
                   + (if found then [DeleteCommand(old(svc.tunnels)[FindIndex(old(svc.tunnels), id)].interfaceName)] else [])
  {
    if id == "" {
      return ActionStatus(false, IdMissing, None);
    }
    var deleted := svc.DeleteTunnel(id);
    if deleted {
      return ActionStatus(true, "Tunnel deletion process initiated.", None);
    }
    RemoveByIdAbsent(old(svc.tunnels), id);
    r := ActionStatus(false, "Tunnel not found or failed to delete.", None);
  }

  /** `toggleTunnelStatusAction`: asks the service for the opposite status and reports the outcome. */
  method ToggleTunnelStatusAction(svc: TunnelService, id: string, current: Status) returns (r: ActionStatus)
    modifies svc
    ensures id == "" ==> r == ActionStatus(false, IdMissing, None)
                         && svc.tunnels == old(svc.tunnels) && svc.executed == old(svc.executed)
    ensures id != "" ==>
              var target := TargetStatus(current);
              var i := FindIndex(old(svc.tunnels), id);
              && (i == -1 ==> r == ActionStatus(false, "Failed to change tunnel status.", None)
                              && svc.tunnels == old(svc.tunnels) && svc.executed == old(svc.executed))
              && (i != -1 ==>
                    var command := LinkCommand(old(svc.tunnels)[i].interfaceName, target);
                    && svc.executed == old(svc.executed) + [command]
                    && if Simulate(command).success then
                         r == ActionStatus(true, "Tunnel status change to " + StatusText(target) + " initiated.", Some(target))
                         && svc.tunnels == old(svc.tunnels)[i := old(svc.tunnels)[i].(status := target)]
                       else
                         r == ActionStatus(false, "Error toggling tunnel status: "
                                                  + ("Failed to set tunnel status: " + Simulate(command).message), None)
                         && svc.tunnels == old(svc.tunnels))
  {
    if id == "" {
      return ActionStatus(false, IdMissing, None);
    }
    var target := TargetStatus(current);
    var outcome := svc.SetTunnelStatus(id, target);
    match outcome
    case Returned(true) =>
      r := ActionStatus(true, "Tunnel status change to " + StatusText(target) + " initiated.", Some(target));
    case Returned(false) =>
      r := ActionStatus(false, "Failed to change tunnel status.", None);
    case Threw(e) =>
      r := ActionStatus(false, "Error toggling tunnel status: " + e.message, None);
  }
}
