/** The messages between a frontend and the core. Error messages are not modelled, their codes are. */
module FrontendProtocol {
  import A = Approval

  type Content = string

  datatype FrontendDispatchResponse =
    | Done(payload: Content)
    | AppError(code: string, message: string)
    | PlatformError(code: string)

  datatype ThemeFlavor = Latte | Macchiato

  datatype ControlMessage =
    | Ping
    | Pong
    | Status
    | StatusResult(workerCount: nat, socketPath: string, runtimeReady: bool)
    | ListPendingApprovals
    | PendingApprovalsResult(approvals: seq<A.PendingApproval>)
    | ApprovePendingApproval(approvalId: string)
    | RejectPendingApproval(approvalId: string)
    | ApprovalDecisionResult
    | GetTheme
    | GetThemeResult(flavor: ThemeFlavor)
    | SetTheme(flavor: ThemeFlavor)
    | SetThemeResult
    | ThemeChanged(flavor: ThemeFlavor)
}
